/** Factories of `FUNCMAP` whose logic is their own: the tri-state
    detectors of the book and structure browsers, the user chain, the
    ownership test, the image size table (`named_sizes`) and the uid
    lookups (`uid2brain`, `uid2fullpath`, `uid2path`).

    Every hub or info entry a factory reads is a parameter; a browser the
    tools hub did not find is `None`.
 */
module Factories {
  import opened Outcomes
  import opened Strings
  import opened Numerals
  import Utils

  // ---------------------------------------------------------------------
  // Tri-state detectors: None when the browser is missing
  // ---------------------------------------------------------------------

  /** `detect_book` and `detect_presentation`: `None` without the browser,
      else its verdict on the context. */
  function BrowserVerdict<B>(browser: Option<B>, verdict: B -> bool): (r: Option<bool>)
    ensures r.None? <==> browser.None?
    ensures r == Some(true) <==> browser.Some? && verdict(browser.value)
  {
    if browser.None? then None else Some(verdict(browser.value))
  }

  /** `detect_structual`: whether a structure folder is found above the
      context; `None` without the `structuretype` browser. */
  function DetectStructural<S, F>(structureType: Option<S>, folderOf: S -> Option<F>): (r: Option<bool>)
    ensures r.None? <==> structureType.None?
    ensures r == Some(true) <==> structureType.Some? && folderOf(structureType.value).Some?
  {
    if structureType.None? then None else Some(folderOf(structureType.value).Some?)
  }

  /** `get_structure_number`: `None` unless the context is a book; `0` for a
      book without the `structurenumber` browser; else the number that
      browser holds for the context's uid, which may be `None`. */
  function StructureNumber<N>(isBook: Option<bool>, numbers: Option<N>, lookup: N -> Option<int>): (r: Option<int>)
    ensures isBook != Some(true) ==> r.None?
    ensures isBook == Some(true) && numbers.None? ==> r == Some(0)
    ensures isBook == Some(true) && numbers.Some? ==> r == lookup(numbers.value)
  {
    if isBook != Some(true) then None
    else if numbers.None? then Some(0)
    else lookup(numbers.value)
  }

  /** Without the `book` browser there is no structure number, even when
      the `structurenumber` browser exists. */
  lemma NoBookNoNumber<B, N>(book: Option<B>, isBook: B -> bool, numbers: Option<N>, lookup: N -> Option<int>)
    requires book.None?
    ensures StructureNumber(BrowserVerdict(book, isBook), numbers, lookup).None?
  {
  }

  /** A structure number exists only for a context the `book` browser
      calls a book. */
  lemma NumberOnlyForBooks<B, N>(book: Option<B>, isBook: B -> bool, numbers: Option<N>, lookup: N -> Option<int>)
    requires StructureNumber(BrowserVerdict(book, isBook), numbers, lookup).Some?
    ensures book.Some? && isBook(book.value)
  {
  }

  // ---------------------------------------------------------------------
  // The user chain: None all the way down for an anonymous user
  // ---------------------------------------------------------------------

  /** What the user chain asks of `portal_membership` and of the `author`
      browser: its `getByUserId`, or `None` when the hub finds no such
      browser. */
  datatype Users<!U, !A> = Users(
    isAnonymous: bool,
    authenticated: U,
    getId: U -> string,
    author: Option<string -> Option<A>>,
    getEmail: A -> string)

  /** `detect_user_object`. */
  function UserObject<U, A>(u: Users<U, A>): (r: Option<U>)
    ensures r.None? <==> u.isAnonymous
    ensures r.Some? ==> r.value == u.authenticated
  {
    if u.isAnonymous then None else Some(u.authenticated)
  }

  /** `detect_user_id` and `detect_user_email`: `None` without the object,
      else the attribute read from it. */
  function AttributeOf<T>(obj: Option<T>, get: T -> string): (r: Option<string>)
    ensures r.None? <==> obj.None?
    ensures r.Some? ==> r.value == get(obj.value)
  {
    if obj.None? then None else Some(get(obj.value))
  }

  /** `detect_author_object`: `None` without a user id; otherwise the
      profile the `author` browser finds for it. A missing browser is
      `None` in the hub, and calling `getByUserId` on it raises
      `AttributeError`. */
  function AuthorObject<A>(userId: Option<string>, author: Option<string -> Option<A>>): (r: Result<Option<A>>)
    ensures r.Err? <==> userId.Some? && author.None?
    ensures r.Err? ==> r.error == AttributeError
    ensures userId.None? ==> r == Ok(None)
    ensures r.Ok? && r.value.Some? ==> userId.Some? && author.Some? && author.value(userId.value) == r.value
  {
    if userId.None? then Ok(None)
    else if author.None? then Err(AttributeError)
    else Ok(author.value(userId.value))
  }

  /** `detect_user_email`: the e-mail of the author profile, or the error
      that reading the profile raised. */
  function UserEmail<A>(userId: Option<string>, author: Option<string -> Option<A>>, getEmail: A -> string)
    : (r: Result<Option<string>>)
    ensures r.Err? <==> AuthorObject(userId, author).Err?
    ensures r.Err? ==> r.error == AttributeError
    ensures r.Ok? ==> r.value == AttributeOf(AuthorObject(userId, author).value, getEmail)
  {
    var a :- AuthorObject(userId, author);
    Ok(AttributeOf(a, getEmail))
  }

  /** `detect_logged_in`. */
  function LoggedIn<U, A>(u: Users<U, A>): (r: bool)
    ensures r <==> UserObject(u).Some?
  {
    !u.isAnonymous
  }

  /** `get_is_member_of`: the membership test of the user, or one that
      always answers no when nobody is logged in. */
  function IsMemberOf(userId: Option<string>, factory: string -> string -> bool): (r: string -> bool)
    ensures userId.None? ==> forall g :: !r(g)
    ensures userId.Some? ==> forall g :: r(g) == factory(userId.value)(g)
  {
    if userId.None? then (g: string) => false else factory(userId.value)
  }

  /** `get_is_mine`: the context is the user's own when the user is logged
      in, the context is not a folder and the user created it. */
  function IsMine(userId: Option<string>, portalType: string, owner: string): (r: bool)
    ensures r <==> userId.Some? && portalType != "Folder" && userId.value == owner
  {
    if userId.None? then false
    else if portalType == "Folder" then false
    else userId.value == owner
  }

  /** The whole chain for one request: user id, e-mail (or the error its
      lookup raises), membership test and ownership, as the info hub
      derives them from each other. */
  datatype UserFacts = UserFacts(
    loggedIn: bool,
    userId: Option<string>,
    email: Result<Option<string>>,
    isMemberOf: string -> bool,
    isMine: bool)

  function UserChain<U, A>(u: Users<U, A>, factory: string -> string -> bool, portalType: string, owner: string): UserFacts {
    var id := AttributeOf(UserObject(u), u.getId);
    UserFacts(LoggedIn(u), id, UserEmail(id, u.author, u.getEmail),
              IsMemberOf(id, factory), IsMine(id, portalType, owner))
  }

  /** For an anonymous user every link of the chain is `None`, membership is
      always denied and nothing is the user's own. */
  lemma AnonymousChain<U, A>(u: Users<U, A>, factory: string -> string -> bool, portalType: string, owner: string)
    requires u.isAnonymous
    ensures var f := UserChain(u, factory, portalType, owner);
            && !f.loggedIn && f.userId.None? && f.email == Ok(None) && !f.isMine
            && forall g :: !f.isMemberOf(g)
  {
  }

  /** For a logged-in user the id is that of the authenticated member, and
      the user is logged in exactly when an id is known. */
  lemma LoggedInChain<U, A>(u: Users<U, A>, factory: string -> string -> bool, portalType: string, owner: string)
    ensures var f := UserChain(u, factory, portalType, owner);
            && (f.loggedIn <==> f.userId.Some?)
            && (f.loggedIn ==> f.userId == Some(u.getId(u.authenticated)))
            && (f.email.Ok? && f.email.value.Some? ==> f.loggedIn)
  {
  }

  /** For a logged-in user without an `author` browser, asking for the
      e-mail raises `AttributeError`; the other facts are unaffected. */
  lemma MissingAuthorBrowser<U, A>(u: Users<U, A>, factory: string -> string -> bool, portalType: string, owner: string)
    requires !u.isAnonymous && u.author.None?
    ensures var f := UserChain(u, factory, portalType, owner);
            && f.email == Err(AttributeError)
            && f.loggedIn && f.userId == Some(u.getId(u.authenticated))
  {
  }

  // ---------------------------------------------------------------------
  // named_sizes: the `allowed_sizes` text of the imaging properties
  // ---------------------------------------------------------------------

  /** `list(map(int, parts))`: `ValueError` at the first part that is not
      an integer. */
  function ParseInts(parts: seq<string>): (r: Result<seq<int>>)
    ensures r.Ok? <==> forall i :: 0 <= i < |parts| ==> IsIntText(parts[i])
    ensures r.Ok? ==> |r.value| == |parts| && forall i :: 0 <= i < |parts| ==> ParseInt(parts[i]) == Ok(r.value[i])
    ensures r.Err? ==> r.error == ValueError
  {
    var rs := seq(|parts|, i requires 0 <= i < |parts| => ParseInt(parts[i]));
    assert forall i :: 0 <= i < |parts| ==> rs[i] == ParseInt(parts[i]);
    Collect(rs)
  }

  /** `line.strip().split()`. */
  function Tokens(line: string): (r: seq<string>)
    ensures forall t :: t in r ==> IsWord(t)
  {
    Words(Strip(line))
  }

  /** `list(map(int, size.split(':')))`. */
  function ParseDims(size: string): (r: Result<seq<int>>)
    ensures r.Ok? <==> forall p :: p in Split(size, ':') ==> IsIntText(p)
    ensures r.Ok? ==> |r.value| == |Split(size, ':')|
    ensures r.Err? ==> r.error == ValueError
  {
    ParseInts(Split(size, ':'))
  }

  /** One line `name w:h`: after stripping it must split into exactly two
      tokens (else unpacking raises `ValueError`), the second being
      `:`-separated integers. */
  function ParseSizeLine(line: string): (r: Result<(string, seq<int>)>)
    ensures r.Err? ==> r.error == ValueError
    ensures r.Ok? <==> |Tokens(line)| == 2 && ParseDims(Tokens(line)[1]).Ok?
    ensures r.Ok? ==> r.value.0 == Tokens(line)[0] && ParseDims(Tokens(line)[1]) == Ok(r.value.1)
  {
    var tokens := Tokens(line);
    if |tokens| != 2 then Err(ValueError)
    else
      var dims := ParseDims(tokens[1]);
      if dims.Err? then Err(ValueError) else Ok((tokens[0], dims.value))
  }

  /** The dictionary of the parsed lines, a later line overwriting an
      earlier one of the same name, or the error of the first line that
      does not parse. */
  function DictOfLines<V>(lines: seq<string>, parse: string -> Result<(string, V)>): (r: Result<map<string, V>>)
    ensures r.Ok? <==> forall i :: 0 <= i < |lines| ==> parse(lines[i]).Ok?
    ensures r.Err? ==> exists i :: 0 <= i < |lines| && parse(lines[i]) == Err(r.error)
                                   && forall j :: 0 <= j < i ==> parse(lines[j]).Ok?
  {
    var rs := seq(|lines|, i requires 0 <= i < |lines| => parse(lines[i]));
    assert forall i :: 0 <= i < |lines| ==> rs[i] == parse(lines[i]);
    var parsed := Collect(rs);
    if parsed.Ok? then Ok(Utils.AsDict(parsed.value)) else Err(parsed.error)
  }

  /** When every line parses, the dictionary is that of the parsed pairs. */
  lemma DictOfParsedLines<V>(lines: seq<string>, parse: string -> Result<(string, V)>, parsed: seq<(string, V)>)
    requires |parsed| == |lines|
    requires forall j :: 0 <= j < |lines| ==> parse(lines[j]) == Ok(parsed[j])
    ensures DictOfLines(lines, parse) == Ok(Utils.AsDict(parsed))
  {
    var c := Collect(seq(|lines|, i requires 0 <= i < |lines| => parse(lines[i])));
    assert c.Ok?;
    assert c.value == parsed;
  }

  /** The first line that does not parse decides the error. */
  lemma FirstFailure<V>(lines: seq<string>, parse: string -> Result<(string, V)>, i: nat)
    requires i < |lines|
    requires forall j :: 0 <= j < i ==> parse(lines[j]).Ok?
    requires parse(lines[i]).Err?
    ensures DictOfLines(lines, parse) == Err(parse(lines[i]).error)
  {
    var r := DictOfLines(lines, parse);
    var k :| 0 <= k < |lines| && parse(lines[k]) == Err(r.error) && forall j :: 0 <= j < k ==> parse(lines[j]).Ok?;
  }

  /** The dictionary `named_sizes` builds from the lines of the property:
      the name of every line mapped to its dimensions, a later line
      overwriting an earlier one; `ValueError` when any line is malformed. */
  function SizesFromLines(lines: seq<string>): (r: Result<map<string, seq<int>>>)
    ensures r.Ok? <==> forall i :: 0 <= i < |lines| ==> ParseSizeLine(lines[i]).Ok?
    ensures r.Err? ==> r.error == ValueError
  {
    DictOfLines(lines, ParseSizeLine)
  }

  function SizesOf(text: string): (r: Result<map<string, seq<int>>>)
    ensures r.Ok? <==> forall line :: line in Split(text, '\n') ==> ParseSizeLine(line).Ok?
    ensures r.Err? ==> r.error == ValueError
  {
    SizesFromLines(Split(text, '\n'))
  }

  /** `named_sizes`: the text split into lines, and the loop filling the
      dictionary. */
  method NamedSizes(text: string) returns (r: Result<map<string, seq<int>>>)
    ensures r == SizesOf(text)
  {
    r := FillDict(Split(text, '\n'), ParseSizeLine);
  }

  /** The line loop of `named_sizes`: each line parsed and stored in turn,
      leaving at the first that does not parse. */
  method FillDict<V>(lines: seq<string>, parse: string -> Result<(string, V)>) returns (r: Result<map<string, V>>)
    ensures r == DictOfLines(lines, parse)
  {
    ghost var parsed: seq<(string, V)> := [];
    var dic: map<string, V> := map[];
    var i := 0;
    while i < |lines|
      invariant 0 <= i <= |lines|
      invariant |parsed| == i
      invariant forall j :: 0 <= j < i ==> parse(lines[j]) == Ok(parsed[j])
      invariant dic == Utils.AsDict(parsed)
    {
      var entry := parse(lines[i]);
      if entry.Err? {
        FirstFailure(lines, parse, i);
        return Err(entry.error);
      }
      var (key, value) := entry.value;
      dic := dic[key := value];
      AsDictSnoc(parsed, (key, value));
      parsed := parsed + [(key, value)];
      i := i + 1;
    }
    DictOfParsedLines(lines, parse, parsed);
    r := Ok(dic);
  }

  /** Storing one more pair in the dictionary. */
  lemma AsDictSnoc<V>(ps: seq<(string, V)>, p: (string, V))
    ensures Utils.AsDict(ps + [p]) == Utils.AsDict(ps)[p.0 := p.1]
  {
    assert (ps + [p])[..|ps|] == ps;
  }

  /** An empty property, or one ending in a line break, has a line without
      two tokens and raises `ValueError`. */
  lemma EmptyLineRaises(text: string)
    requires text == "" || (|text| > 0 && text[|text| - 1] == '\n')
    ensures SizesOf(text).Err?
  {
    var lines := Split(text, '\n');
    if text == "" {
      SplitWithoutSeparator(text, '\n');
      assert Words(Strip(lines[0])) == [];
    } else {
      var n := |lines| - 1;
      assert Words(Strip(lines[n])) == [] by {
        LastPartEmpty(text);
      }
      assert !ParseSizeLine(lines[n]).Ok?;
    }
  }

  /** Text ending in the separator splits into a last part that is empty. */
  lemma LastPartEmpty(text: string)
    requires |text| > 0 && text[|text| - 1] == '\n'
    ensures Split(text, '\n')[|Split(text, '\n')| - 1] == ""
  {
    JoinLast(Split(text, '\n'), '\n');
  }

  /** Joined text ends with the last part. */
  lemma {:induction false} JoinLast(parts: seq<string>, sep: char)
    requires |parts| > 0
    ensures EndsWith(Join(parts, sep), parts[|parts| - 1])
    decreases |parts|
  {
    if |parts| > 1 {
      JoinLast(parts[1..], sep);
      var s := Join(parts, sep);
      var t := Join(parts[1..], sep);
      assert s == parts[0] + [sep] + t;
      assert s[|s| - |t|..] == t;
    }
  }

  /** `str(n)` of every dimension. */
  function ShowInts(dims: seq<int>): (r: seq<string>)
    ensures |r| == |dims|
    ensures forall i :: 0 <= i < |r| ==> r[i] == ShowInt(dims[i])
  {
    if |dims| == 0 then [] else [ShowInt(dims[0])] + ShowInts(dims[1..])
  }

  /** The line of one entry, `name w:h`. */
  function FormatLine(e: (string, seq<int>)): string {
    e.0 + " " + Join(ShowInts(e.1), ':')
  }

  /** The property text of a list of entries, one line each. */
  function FormatSizes(entries: seq<(string, seq<int>)>): string {
    Join(seq(|entries|, i requires 0 <= i < |entries| => FormatLine(entries[i])), '\n')
  }

  predicate WellFormed(e: (string, seq<int>)) {
    IsWord(e.0) && |e.1| > 0
  }

  predicate NumeralChar(c: char) {
    IsDigit(c) || c == '-' || c == ':'
  }

  lemma ParseShowAll(dims: seq<int>)
    ensures ParseInts(ShowInts(dims)) == Ok(dims)
  {
    var parts := ShowInts(dims);
    forall i | 0 <= i < |parts|
      ensures ParseInt(parts[i]) == Ok(dims[i])
    {
      ParseShow(dims[i]);
    }
    var r := ParseInts(parts);
    assert r.Ok?;
    assert r.value == dims;
  }

  /** Every character of the shown dimensions is a numeral character. */
  lemma ShowIntsNumerals(dims: seq<int>)
    ensures forall i, j :: 0 <= i < |ShowInts(dims)| && 0 <= j < |ShowInts(dims)[i]| ==> NumeralChar(ShowInts(dims)[i][j])
  {
    var parts := ShowInts(dims);
    forall i, j | 0 <= i < |parts| && 0 <= j < |parts[i]|
      ensures NumeralChar(parts[i][j])
    {
      assert parts[i] == ShowInt(dims[i]);
    }
  }

  /** Non-empty text of numeral characters is one token. */
  lemma NumeralsAreWord(t: string)
    requires |t| > 0
    requires forall j :: 0 <= j < |t| ==> NumeralChar(t[j])
    ensures IsWord(t)
  {
  }

  /** The dimensions text is one token of numerals and colons. */
  lemma DimsTextIsWord(dims: seq<int>)
    requires |dims| > 0
    ensures IsWord(Join(ShowInts(dims), ':'))
    ensures forall j :: 0 <= j < |Join(ShowInts(dims), ':')| ==> NumeralChar(Join(ShowInts(dims), ':')[j])
  {
    var parts := ShowInts(dims);
    var t := Join(parts, ':');
    ShowIntsNumerals(dims);
    JoinPreserves(parts, ':', NumeralChar);
    JoinLast(parts, ':');
    assert |t| > 0;
    NumeralsAreWord(t);
  }

  lemma ParseFormattedLine(e: (string, seq<int>))
    requires WellFormed(e)
    ensures ParseSizeLine(FormatLine(e)) == Ok(e)
    ensures '\n' !in FormatLine(e)
  {
    var dimsText := Join(ShowInts(e.1), ':');
    DimsTextIsWord(e.1);
    var line := FormatLine(e);
    assert Join([e.0, dimsText], ' ') == line;
    WordsOfJoin([e.0, dimsText]);
    StripUntouched(line);
    var parts := ShowInts(e.1);
    forall i | 0 <= i < |parts|
      ensures ':' !in parts[i]
    {
      assert parts[i] == ShowInt(e.1[i]);
    }
    SplitJoin(parts, ':');
    ParseShowAll(e.1);
  }

  /** `named_sizes` reads back the text written for a list of entries: the
      dictionary of those entries, later ones winning. */
  lemma SizesRoundTrip(entries: seq<(string, seq<int>)>)
    requires |entries| > 0
    requires forall i :: 0 <= i < |entries| ==> WellFormed(entries[i])
    ensures SizesOf(FormatSizes(entries)) == Ok(Utils.AsDict(entries))
  {
    var lines := seq(|entries|, i requires 0 <= i < |entries| => FormatLine(entries[i]));
    forall i | 0 <= i < |lines|
      ensures '\n' !in lines[i]
      ensures ParseSizeLine(lines[i]) == Ok(entries[i])
    {
      ParseFormattedLine(entries[i]);
    }
    SplitJoin(lines, '\n');
    assert Split(FormatSizes(entries), '\n') == lines;
    DictOfParsedLines(lines, ParseSizeLine, entries);
  }

  // ---------------------------------------------------------------------
  // uid2brain, uid2fullpath, uid2path
  // ---------------------------------------------------------------------

  /** A catalog brain: its physical path and the outcome of its
      `getObject()`, which raises for an object the user may not see or one
      that no longer exists. */
  datatype Brain<O> = Brain(path: string, getObject: Result<O>)

  /** `uid2brain[uid]`: the first brain the catalog search finds for the
      uid, `None` when it finds none; an error of the search propagates. */
  function Uid2Brain<O>(search: string -> Result<seq<Brain<O>>>, uid: string): (r: Result<Option<Brain<O>>>)
    ensures r.Err? <==> search(uid).Err?
    ensures r.Err? ==> r.error == search(uid).error
    ensures r.Ok? ==> (r.value.None? <==> |search(uid).value| == 0)
    ensures r.Ok? && r.value.Some? ==> r.value.value == search(uid).value[0]
  {
    var brains :- search(uid);
    if |brains| == 0 then Ok(None) else Ok(Some(brains[0]))
  }

  /** `uid2fullpath[uid]`, given what `uid2brain[uid]` gave: the brain's
      path. A missing brain fails on `None.getPath()` with
      `AttributeError`; only a `KeyError` of the brain lookup itself is
      caught and answered with `None`. */
  function Uid2FullPath<O>(brain: Result<Option<Brain<O>>>): (r: Result<Option<string>>)
    ensures r.Ok? && r.value.None? <==> brain.Err? && brain.error == KeyError
    ensures brain.Err? && brain.error != KeyError ==> r == Err(brain.error)
    ensures brain.Ok? && brain.value.None? ==> r == Err(AttributeError)
    ensures brain.Ok? && brain.value.Some? ==> r == Ok(Some(brain.value.value.path))
  {
    match brain
    case Err(e) => if e == KeyError then Ok(None) else Err(e)
    case Ok(None) => Err(AttributeError)
    case Ok(Some(b)) => Ok(Some(b.path))
  }

  /** `uid2path[uid]`: the brain's path without its second `/`-separated
      segment, the portal id; a path with no `/` has no such segment and
      raises `IndexError`. A missing brain and the errors of the brain
      lookup behave as in `uid2fullpath`. */
  function Uid2Path<O>(brain: Result<Option<Brain<O>>>): (r: Result<Option<string>>)
    ensures r.Ok? && r.value.None? <==> brain.Err? && brain.error == KeyError
    ensures brain.Err? && brain.error != KeyError ==> r == Err(brain.error)
    ensures brain.Ok? && brain.value.None? ==> r == Err(AttributeError)
    ensures brain.Ok? && brain.value.Some? ==>
              (r == Err(IndexError) <==> '/' !in brain.value.value.path)
              && (r.Ok? ==> r.value == Some(WithoutPortalSegment(brain.value.value.path).value))
  {
    match brain
    case Err(e) => if e == KeyError then Ok(None) else Err(e)
    case Ok(None) => Err(AttributeError)
    case Ok(Some(b)) =>
      var p :- WithoutPortalSegment(b.path);
      Ok(Some(p))
  }

  /** A path split at `/`, without its second segment, joined again; a
      path without `/` has no second segment and raises `IndexError`. */
  function WithoutPortalSegment(path: string): (r: Result<string>)
    ensures r.Err? <==> '/' !in path
    ensures r.Err? ==> r.error == IndexError
  {
    var segments := Split(path, '/');
    if |segments| < 2 then
      assert segments == [path] by { SplitWithoutSeparator(path, '/'); }
      Err(IndexError)
    else
      assert '/' in path by { SplitOfSeparatorFree(path, '/'); }
      Ok(Join(segments[..1] + segments[2..], '/'))
  }

  lemma SplitOfSeparatorFree(s: string, sep: char)
    requires |Split(s, sep)| >= 2
    ensures sep in s
  {
    if sep !in s {
      SplitWithoutSeparator(s, sep);
    }
  }

  /** The segments of `a/site` and `a/site/rest`. */
  lemma SegmentsOfPath(a: string, site: string, rest: string)
    requires '/' !in a && '/' !in site
    requires rest == "" || rest[0] == '/'
    ensures Split(a + "/" + site + rest, '/') == [a, site] + (if rest == "" then [] else Split(rest[1..], '/'))
  {
    assert a + "/" + site + rest == a + ['/'] + (site + rest);
    SplitAtFirstSeparator(a, '/', site + rest);
    if rest == "" {
      SplitWithoutSeparator(site, '/');
      assert site + rest == site;
    } else {
      assert site + rest == site + ['/'] + rest[1..];
      SplitAtFirstSeparator(site, '/', rest[1..]);
    }
  }

  /** The segment after the first `/` is dropped together with one of its
      slashes: `a/site` gives `a` and `a/site/rest` gives `a/rest`, so an
      absolute path `/portal/docs/item` becomes `/docs/item`. */
  lemma DropsSecondSegment(a: string, site: string, rest: string)
    requires '/' !in a && '/' !in site
    requires rest == "" || rest[0] == '/'
    ensures WithoutPortalSegment(a + "/" + site + rest) == Ok(a + rest)
  {
    var path := a + "/" + site + rest;
    SegmentsOfPath(a, site, rest);
    var segments := Split(path, '/');
    if rest == "" {
      assert segments[..1] + segments[2..] == [a];
      assert Join([a], '/') == a;
      assert a + rest == a;
    } else {
      var tail := Split(rest[1..], '/');
      assert segments[..1] + segments[2..] == [a] + tail;
      JoinCons(a, tail, '/');
      assert a + ['/'] + rest[1..] == a + rest;
    }
  }

  /** The absolute path of an object in the portal `portal`:
      `/portal/docs/item` becomes `/docs/item`. */
  lemma PortalPathExample<O>(site: string, rest: string, obj: Result<O>)
    requires site == "portal" && rest == "/docs/item"
    ensures Uid2Path(Ok(Some(Brain("/" + site + rest, obj)))) == Ok(Some(rest))
  {
    assert "" + "/" + site + rest == "/" + site + rest;
    DropsSecondSegment("", site, rest);
    assert "" + rest == rest;
  }
}
