# visaplan.plone.infohubs in Dafny

A model of the two lazy per-context tables of `visaplan.plone.infohubs`
and of the decision procedures around them.

- `make_hubs` builds two tables. The tools hub (`hub`) maps a name to a
  tool, adapter, view or browser of the context, chosen by a fixed
  dispatch. The info hub (`info`) maps a name to a fact about the request,
  computed by the factory registered in `FUNCMAP`.
- Both tables resolve a name on first access and keep the value, but only
  once the computation has returned.
- Around them sit pure procedures:
  - the desktop-group resolution over the session's unique stack
    (`detect_group_id`);
  - the language-aware reference resolver (`get_translated`);
  - the image size table (`named_sizes`) and the uid lookups;
  - the tri-state detectors and the user chain;
  - the tool-name classifier of `utils.py`;
  - the dictionary normaliser that makes dictionary arguments usable as
    memo keys;
  - the argument helpers of `hubs2.py`.

Layout, one module per file:

| file | module | models |
|---|---|---|
| `outcomes.dfy` | `Outcomes` | `None` and the Python exceptions as values |
| `strings.dfy` | `Strings` | `split(sep)`, `join`, `split()`, `strip`, `lstrip` |
| `numerals.dfy` | `Numerals` | `int()` on decimal text, `str()` of an int |
| `order.dfy` | `StringOrder` | the string order `sorted` uses |
| `utils.dfy` | `Utils` | `make_toolDetector`, `sorted_nonempty_item_tuples`, `attribute_factory`, the constant helpers |
| `memo.dfy` | `Memo` | the memo table both hubs and `Proxy` share, with a log of computations |
| `toolshub.dfy` | `ToolsHub` | `NAMED_ADAPTERS`, the dispatch and the memo of `ToolsHub` |
| `infohub.dfy` | `InfoHub` | the memo of `InfoHub` over `FUNCMAP` |
| `uniquestack.dfy` | `UniqueStacks` | the assumed behaviour of `UniqueStack` |
| `groupid.dfy` | `GroupId` | `detect_group_id`, `detect_cooperating_groups`, `managed_group_id` |
| `factories.dfy` | `Factories` | tri-state detectors, user chain, `get_is_mine`, `named_sizes`, `uid2brain`/`uid2fullpath`/`uid2path` |
| `translation.dfy` | `Translation` | `get_translated` |
| `hubargs.dfy` | `HubArgs` | `context_and_form_tuple`, `context_tuple` |

How the Python world is represented:

- Python exceptions are `Result` errors named after the exception class.
- `None` is `Option.None`.
- Zope lookups, catalog searches and the collaborators of a factory are
  function parameters: `getToolByName`, `getComponentAdapter`,
  `restrictedTraverse`, `getTranslations`, membership tests.
- `detect_group_id` is a method with loops. It is proved equal to a
  reference function, `GroupId.Resolution`, which states the intended
  priority order without the mutable copy of the cooperating groups.
- `named_sizes` is likewise a loop, proved equal to the dictionary of the
  parsed lines.

Some consequences of the code that the model states:

- `uid2path` of `/portal/docs/item` is `/docs/item`: the leading empty
  segment is kept.
- `Proxy` is taken to hand back what its function returns, so
  `info['uid2brain'][uid]` is `None` for a uid without a brain. Then
  `uid2path` and `uid2fullpath` raise `AttributeError` from
  `None.getPath()`, and `get_translated` counts the uid but finds
  nothing. They answer `None` only if the lookup raises `KeyError`.
- `get_translated` strips all leading slashes of a `path` value.
- The tools hub passes the key itself (`'pc'`) to `getToolByName`, not
  the tool name the table maps it to (`'portal_catalog'`).
- `plone_portal_state` and `plone_context_state` are fetched with
  `getToolByName` because of the `plone_` prefix.
- The tools hub is a dictionary made from the context's items, so an item
  of the context is answered before any dispatch.

## Model

| member | source | states |
|---|---|---|
| Utils.LooksLikeATool | src/visaplan/plone/infohubs/utils.py:76-88 | a known name is a tool; otherwise, with `nodashes`, a name with a dash is not; otherwise the name is a tool exactly when some prefix starts it or some suffix ends it; when no rule decides the answer is `None`, not `False` |
| Utils.Names | src/visaplan/plone/infohubs/utils.py:51-74 | an absent argument stands for no names, a string for `Words` of it (which `Strings.WordsSkipsWhitespace`, `Strings.WordsOfWord` and `Strings.WordsOfWordThen` fix on every text), a list for itself |
| Utils.MakeToolDetector | src/visaplan/plone/infohubs/utils.py:18-74 | the detector knows exactly the names of `known`, keeps the prefixes and suffixes in order, and keeps `nodashes` |
| Utils.AnyPrefix | src/visaplan/plone/infohubs/utils.py:81-84 | the prefix loop answers yes exactly when some prefix starts the name |
| Utils.AnySuffix | src/visaplan/plone/infohubs/utils.py:85-88 | the suffix loop answers yes exactly when some suffix ends the name |
| Utils.TextSpecIsWordList | src/visaplan/plone/infohubs/utils.py:53-72 | a whitespace-separated string for `known`, `prefixes` or `suffixes` configures the detector like the list of its words |
| Utils.AffixExamples | src/visaplan/plone/infohubs/utils.py:22-31 | the docstring: `plone_utils` (prefix) and `mimetype_registry` (suffix) are tools |
| Utils.DashExample | src/visaplan/plone/infohubs/utils.py:33-37 | the docstring: `my-silly_registry` is not a tool although its suffix matches |
| Utils.UndecidedExample | src/visaplan/plone/infohubs/utils.py:39-41 | the docstring: no rule decides `acl_users`, the answer is `None` |
| Utils.KnownExamples | src/visaplan/plone/infohubs/utils.py:43-49 | the docstring: known names are tools, even one with a dash |
| Utils.SortedNonemptyItemTuples | src/visaplan/plone/infohubs/utils.py:130-150 | the result is sorted by key and holds a pair `(k, v)` exactly when the dict maps `k` to a `v` that is not `None`; empty strings are kept |
| Utils.Insert | src/visaplan/plone/infohubs/utils.py:150 | putting one pair into sorted pairs keeps them sorted and adds exactly that pair |
| Utils.SortedUnique | src/visaplan/plone/infohubs/utils.py:150 | two sorted tuples with the same pairs are equal, so the sorted result depends only on the pairs |
| Utils.SameEntriesSameTuple | src/visaplan/plone/infohubs/utils.py:130-150 | dicts that differ only in key order and in `None`-valued entries give the same tuple |
| Utils.DictOfTuples | src/visaplan/plone/infohubs/utils.py:136-144 | `dict()` of the tuple holds exactly the keys whose value is not `None`, each with its value |
| Utils.GimmeAttribute | src/visaplan/plone/infohubs/utils.py:118-127 | the getter reads the `override` attribute when `override` is truthy, else `aname`; a missing attribute raises `AttributeError` |
| Utils.OverrideIgnoresName | src/visaplan/plone/infohubs/utils.py:122-124 | with a truthy `override` the attribute name asked for makes no difference |
| Utils.FalseByDefault | src/visaplan/plone/infohubs/utils.py:94-99 | `false_by_default()` is `False` |
| Utils.Gimme0 | src/visaplan/plone/infohubs/utils.py:102-107 | `gimme_0()` is `0` |
| Utils.Gimme1 | src/visaplan/plone/infohubs/utils.py:110-115 | `gimme_1()` is `1` |
| StringOrder.LessTotal | src/visaplan/plone/infohubs/utils.py:150 | any two different keys are ordered one way or the other, so `sorted` has one answer |
| StringOrder.LessTransitive | src/visaplan/plone/infohubs/utils.py:150 | the key order is transitive |
| Memo.Fetch | src/visaplan/plone/infohubs/hubs.py:232-266 | a stored key is answered from the table with nothing computed; otherwise the computation runs once, is logged, and its value is stored only when it returned normally |
| Memo.FetchAgain | src/visaplan/plone/infohubs/hubs.py:232-234 | after a successful access the next access of the key gives the same value and computes nothing |
| Memo.FailureRetried | src/visaplan/plone/infohubs/hubs.py:263-266 | a raising computation stores nothing, and the next access computes again |
| Memo.AtMostOncePerKey | src/visaplan/plone/infohubs/hubs.py:232-266 | for any sequence of accesses with computations that do not raise, each key is computed at most once and stays resolved |
| ToolsHub.Init | src/visaplan/plone/infohubs/hubs.py:268 | `ToolsHub(context)` starts with exactly the context's items, the last of repeated pairs winning, and has computed nothing; an empty mapping gives an empty hub; a context that is not iterable raises `TypeError`, and an iterable `dict()` cannot use raises the error that `dict()` or the iteration raises |
| ToolsHub.KnownNamesAreTableValues | src/visaplan/plone/infohubs/hubs.py:130-151 | the detector's known names are exactly the values of `NAMED_ADAPTERS` |
| ToolsHub.NamedAdapters | src/visaplan/plone/infohubs/hubs.py:130-146 | the table has exactly the fifteen abbreviations, each standing for its tool name |
| ToolsHub.HubDetector | src/visaplan/plone/infohubs/hubs.py:147-150 | the module detector knows exactly the tool names of `NAMED_ADAPTERS` and rejects names with a dash |
| ToolsHub.AbbreviationsAreShort | src/visaplan/plone/infohubs/hubs.py:130-147 | every abbreviation of `NAMED_ADAPTERS` has at most three letters |
| ToolsHub.Classify | src/visaplan/plone/infohubs/hubs.py:240-258 | the dispatch order: a table entry (`None` means adapter, a string means tool, a tuple is unsupported, anything else is a callable); else view for a `view` ending or a dash; else tool when the detector says `True`; else browser |
| ToolsHub.Resolve | src/visaplan/plone/infohubs/hubs.py:239-263 | each strategy is called with the context and the key itself, a callable entry with the context only; a tuple entry raises `ValueError`; a missing browser gives `None` |
| ToolsHub.Get | src/visaplan/plone/infohubs/hubs.py:232-266 | `hub[key]` answers a stored key from the table; a fresh key is resolved, logged and stored only when the resolution did not raise |
| ToolsHub.ContextItemsComeFirst | src/visaplan/plone/infohubs/hubs.py:232-234 | an item of the context is answered from the hub as it is, with nothing computed |
| ToolsHub.AbbreviationPassesKey | src/visaplan/plone/infohubs/hubs.py:240-263 | an abbreviation is fetched with `getToolByName(context, key)`, using the abbreviation itself |
| ToolsHub.CatalogAbbreviation | src/visaplan/plone/infohubs/hubs.py:136 | `hub['pc']` asks `getToolByName` for `pc` although the table maps it to `portal_catalog` |
| ToolsHub.BrowserNeverRaises | src/visaplan/plone/infohubs/hubs.py:187-188 | the browser strategy traverses `@@key` with a default, so it never raises and a missing browser is `None` |
| ToolsHub.DashMeansView | src/visaplan/plone/infohubs/hubs.py:253-254 | inside the hub a name with a dash outside the table is always a view; the detector's dash rule never decides |
| ToolsHub.ViewEndingMeansView | src/visaplan/plone/infohubs/hubs.py:253-254 | a name outside the table that ends in `view` is fetched as a view |
| ToolsHub.PrefixedNameIsTool | src/visaplan/plone/infohubs/hubs.py:253-256 | a name that is not an abbreviation or view-like and that starts with `plone_` or `portal_` goes to `getToolByName` |
| ToolsHub.MembershipIsTool | src/visaplan/plone/infohubs/hubs.py:148-151 | `portal_membership` is fetched as a tool |
| ToolsHub.PortalStateIsTool | src/visaplan/plone/infohubs/hubs.py:148-151 | `plone_portal_state` is fetched as a tool because of its prefix |
| ToolsHub.ContextStateIsTool | src/visaplan/plone/infohubs/hubs.py:148-151 | `plone_context_state` is fetched as a tool because of its prefix |
| ToolsHub.OtherNameIsBrowser | src/visaplan/plone/infohubs/hubs.py:253-258 | a longer name that no rule claims is a browser |
| ToolsHub.BookIsBrowser | src/visaplan/plone/infohubs/hubs.py:283-286 | `book` is a browser, so a missing one is `None` |
| InfoHub.Init | src/visaplan/plone/infohubs/hubs.py:855-857 | a new info hub holds only the context, under `context`, and has computed nothing |
| InfoHub.Get | src/visaplan/plone/infohubs/hubs.py:844-853 | `info[key]` answers a stored key; a key without a factory raises `KeyError` and stores nothing; otherwise the factory runs once and its value is stored after it returned |
| InfoHub.EntriesNeverChange | src/visaplan/plone/infohubs/hubs.py:844-853 | a resolved name keeps its value across further accesses, provided factories only add entries |
| InfoHub.FailureLeavesKeyUnresolved | src/visaplan/plone/infohubs/hubs.py:848-852 | a raising factory leaves its name unresolved, and the next access runs the factory again |
| InfoHub.ContextIsSeeded | src/visaplan/plone/infohubs/hubs.py:855-857 | `info['context']` is answered from the table whatever `FUNCMAP` holds |
| InfoHub.ConstantFactoriesResolveOnce | src/visaplan/plone/infohubs/hubs.py:803-805 | `image-print-factor` is `1`, asked twice it is computed once, and a name outside `FUNCMAP` raises `KeyError` with the table unchanged |
| UniqueStacks.Remove | src/visaplan/plone/infohubs/hubs.py:406 | the removal step of `append`: the item is gone and every other item stays |
| UniqueStacks.Push | src/visaplan/plone/infohubs/hubs.py:406 | after `append(x)` the item `x` is on top and the members are the old ones plus `x` |
| UniqueStacks.FromSeq | src/visaplan/plone/infohubs/hubs.py:369 | the constructor appends the stored items in turn; the last one ends on top |
| UniqueStacks.RemoveKeepsUnique | src/visaplan/plone/infohubs/hubs.py:406 | removing keeps a stack free of repetitions |
| UniqueStacks.PushKeepsUnique | src/visaplan/plone/infohubs/hubs.py:406 | appending keeps a stack free of repetitions |
| UniqueStacks.FromSeqIsUnique | src/visaplan/plone/infohubs/hubs.py:369 | a constructed stack has no repetitions |
| UniqueStacks.RemoveLast | src/visaplan/plone/infohubs/hubs.py:406 | removing the top of a stack without repetitions drops just the top |
| UniqueStacks.PushUnchangedIff | src/visaplan/plone/infohubs/hubs.py:406-407 | appending leaves a stack without repetitions equal to itself exactly when the item is already on top |
| UniqueStacks.FromUnique | src/visaplan/plone/infohubs/hubs.py:369 | constructing from items without repetitions keeps them as they are |
| GroupId.NormalizeGid | src/visaplan/plone/infohubs/hubs.py:404-405 | `'None'` and the empty string become `None`; any other group id is kept |
| GroupId.StoredOrEmpty | src/visaplan/plone/infohubs/hubs.py:368-369 | nothing stored or an empty list reads as an empty stack; a stored list is used as it is |
| GroupId.DesktopMarkLikeNormalized | src/visaplan/plone/infohubs/hubs.py:383-405 | a stack item ends the scan for the personal desktop exactly when it is `None` or an explicit id other than the empty string that the explicit branch turns into `None` |
| GroupId.NewestStop | src/visaplan/plone/infohubs/hubs.py:382-387 | the newest stack item that is a desktop mark or a cooperating group of the user, with every newer item passed over |
| GroupId.FirstMember | src/visaplan/plone/infohubs/hubs.py:396-398 | the first group of the list the user belongs to, with every earlier one not a membership; `None` exactly when there is none |
| GroupId.RemoveFirst | src/visaplan/plone/infohubs/hubs.py:388-391 | `list.remove` drops one occurrence and keeps every other group |
| GroupId.RemoveNonMember | src/visaplan/plone/infohubs/hubs.py:385-391 | dropping a group the user does not belong to leaves the first membership unchanged |
| GroupId.DetectGroupId | src/visaplan/plone/infohubs/hubs.py:364-409 | the loops give the reference outcome; without a `gid` request variable nothing is written; with one, the normalised value is returned; outside folders a derived group other than `'ERROR'` is a cooperating group of the user |
| GroupId.ScanMembers | src/visaplan/plone/infohubs/hubs.py:396-398 | the final loop returns the first remaining group the user belongs to |
| GroupId.ExplicitWritesOnChange | src/visaplan/plone/infohubs/hubs.py:402-409 | with a `gid` request variable the session is written exactly when the stack changes: for a stack stored without repetitions, unless the group is already on top |
| GroupId.ExplicitGroupOnTop | src/visaplan/plone/infohubs/hubs.py:406-408 | a written stack has the requested group on top and no repetitions |
| GroupId.ErrorWithoutMembership | src/visaplan/plone/infohubs/hubs.py:393-401 | no desktop mark, no membership and another user's object give `'ERROR'` |
| GroupId.FromSeqMembers | src/visaplan/plone/infohubs/hubs.py:369 | the stack holds only items that were stored |
| GroupId.NewestMemberGroupWins | src/visaplan/plone/infohubs/hubs.py:382-387 | a cooperating group of the user on top of the stack is the result |
| GroupId.DesktopMarkOnTop | src/visaplan/plone/infohubs/hubs.py:382-384 | a `None` or `'None'` on top of the stack selects the personal desktop |
| GroupId.OwnObjectPrefersDesktop | src/visaplan/plone/infohubs/hubs.py:382-394 | on the user's own object, with no stacked membership, the personal desktop wins |
| GroupId.CooperatingGroups | src/visaplan/plone/infohubs/hubs.py:351-362 | a folder has no cooperating groups, nor has a context whose groups are missing, empty or raise |
| GroupId.FolderMeansDesktop | src/visaplan/plone/infohubs/hubs.py:351-380 | on a folder, without a `gid` request variable, the result is `None` and nothing is written, because the cooperating groups of a folder are empty |
| GroupId.AnonymousGetsNoGroup | src/visaplan/plone/infohubs/hubs.py:382-401 | when the membership test always answers no, the derived result is the personal desktop or `'ERROR'` |
| GroupId.ManagedGroupId | src/visaplan/plone/infohubs/hubs.py:411-417 | `group_id` is `None` when missing, `'None'` or empty, and the request value otherwise |
| GroupId.ManagedLikeExplicit | src/visaplan/plone/infohubs/hubs.py:411-417 | `group_id` is normalised like an explicit desktop group |
| Factories.BrowserVerdict | src/visaplan/plone/infohubs/hubs.py:283-294 | `detect_book` and `detect_presentation`: `None` exactly when the browser is missing; `True` exactly when it calls the context a book or presentation |
| Factories.DetectStructural | src/visaplan/plone/infohubs/hubs.py:296-301 | `None` exactly when the `structuretype` browser is missing; `True` exactly when it finds a structure folder |
| Factories.StructureNumber | src/visaplan/plone/infohubs/hubs.py:273-281 | `None` unless the context is a book; `0` without the `structurenumber` browser; else the number it holds for the uid |
| Factories.NoBookNoNumber | src/visaplan/plone/infohubs/hubs.py:273-287 | without the `book` browser there is no structure number |
| Factories.NumberOnlyForBooks | src/visaplan/plone/infohubs/hubs.py:273-287 | a structure number exists only for a context the `book` browser calls a book |
| Factories.UserObject | src/visaplan/plone/infohubs/hubs.py:327-332 | `None` exactly for the anonymous user, else the authenticated member |
| Factories.AttributeOf | src/visaplan/plone/infohubs/hubs.py:339-349 | `detect_user_id` and `detect_user_email`: `None` exactly without the user object or author profile, else its id or e-mail |
| Factories.AuthorObject | src/visaplan/plone/infohubs/hubs.py:334-337 | `None` without a user id; else the profile the `author` browser finds; a missing `author` browser raises `AttributeError` exactly when there is a user id |
| Factories.UserEmail | src/visaplan/plone/infohubs/hubs.py:334-349 | the e-mail raises exactly when the author lookup raises; else it is `None` without an author profile and the profile's e-mail otherwise |
| Factories.LoggedIn | src/visaplan/plone/infohubs/hubs.py:323-325 | logged in exactly when there is a user object |
| Factories.IsMemberOf | src/visaplan/plone/infohubs/hubs.py:569-576 | without a user id every membership test answers no; with one it is the test of that user |
| Factories.IsMine | src/visaplan/plone/infohubs/hubs.py:578-584 | the context is the user's own exactly when the user is logged in, the context is not a folder and the user created it |
| Factories.AnonymousChain | src/visaplan/plone/infohubs/hubs.py:323-349 | for the anonymous user id, author and e-mail are `None` without any error, no membership holds and nothing is the user's own |
| Factories.LoggedInChain | src/visaplan/plone/infohubs/hubs.py:323-349 | logged in exactly when a user id is known, that id is the member's own, and an e-mail that was found implies a login |
| Factories.MissingAuthorBrowser | src/visaplan/plone/infohubs/hubs.py:334-349 | a logged-in user without an `author` browser gets `AttributeError` for the e-mail, while login and user id are unaffected |
| Factories.ParseInts | src/visaplan/plone/infohubs/hubs.py:618 | `list(map(int, parts))` succeeds exactly when every part is integer text, with each value that of its part; else `ValueError` |
| Factories.Tokens | src/visaplan/plone/infohubs/hubs.py:617 | every token of a stripped line is non-empty and free of whitespace; which tokens they are is fixed by `Strings.WordsSkipsWhitespace`, `Strings.WordsOfWord` and `Strings.WordsOfWordThen` |
| Factories.ParseDims | src/visaplan/plone/infohubs/hubs.py:618 | the size parses exactly when every `:`-part is integer text, giving one value per part; else `ValueError` |
| Factories.ParseSizeLine | src/visaplan/plone/infohubs/hubs.py:617-618 | a line parses exactly when it strips and splits into two tokens whose second parses as dimensions; the name is the first token; errors are `ValueError` |
| Factories.DictOfLines | src/visaplan/plone/infohubs/hubs.py:615-620 | the dictionary exists exactly when every line parses; otherwise the error is that of a line that does not parse |
| Factories.DictOfParsedLines | src/visaplan/plone/infohubs/hubs.py:615-620 | when every line parses the dictionary is that of the parsed pairs, later ones overwriting earlier ones |
| Factories.FirstFailure | src/visaplan/plone/infohubs/hubs.py:616-619 | the first malformed line decides the error |
| Factories.SizesFromLines | src/visaplan/plone/infohubs/hubs.py:611-620 | the size table exists exactly when every line parses; else `ValueError` |
| Factories.SizesOf | src/visaplan/plone/infohubs/hubs.py:611-620 | the size table of a text exists exactly when every line of it parses; else `ValueError` |
| Factories.NamedSizes | src/visaplan/plone/infohubs/hubs.py:611-620 | the loop over the lines of `allowed_sizes` gives the size table of those lines |
| Factories.FillDict | src/visaplan/plone/infohubs/hubs.py:615-620 | the line loop stores each parsed pair in turn and stops at the first failure, giving the dictionary of the lines |
| Utils.LastPairWins | src/visaplan/plone/infohubs/hubs.py:619 | storing pairs in turn gives a dictionary that holds exactly their keys, each with the value of the last pair with that key: a later size line overwrites an earlier one of the same name |
| Factories.EmptyLineRaises | src/visaplan/plone/infohubs/hubs.py:616-617 | an empty property, or one ending in a line break, raises `ValueError` |
| Factories.ParseShowAll | src/visaplan/plone/infohubs/hubs.py:618 | `int` reads back every `str` of a dimension |
| Factories.ParseFormattedLine | src/visaplan/plone/infohubs/hubs.py:617-618 | a well-formed line `name w:h` parses back to its name and dimensions |
| Factories.SizesRoundTrip | src/visaplan/plone/infohubs/hubs.py:611-620 | the text written for non-empty well-formed entries reads back as their dictionary |
| Factories.Uid2Brain | src/visaplan/plone/infohubs/hubs.py:622-631 | the first brain the catalog finds for the uid, `None` exactly when it finds none; an error of the search propagates |
| Factories.Uid2FullPath | src/visaplan/plone/infohubs/hubs.py:633-643 | the brain's path; `None` exactly when the brain lookup raises `KeyError`; a missing brain raises `AttributeError`; other errors propagate |
| Factories.Uid2Path | src/visaplan/plone/infohubs/hubs.py:645-657 | `None` exactly when the brain lookup raises `KeyError`; a missing brain raises `AttributeError`; other errors propagate; for a brain, `IndexError` exactly when its path has no `/` |
| Factories.WithoutPortalSegment | src/visaplan/plone/infohubs/hubs.py:654-656 | deleting the second segment fails with `IndexError` exactly when the path has no `/` |
| Factories.DropsSecondSegment | src/visaplan/plone/infohubs/hubs.py:654-656 | the segment after the first `/` is deleted with one slash: `a/site` gives `a`, `a/site/rest` gives `a/rest` |
| Factories.PortalPathExample | src/visaplan/plone/infohubs/hubs.py:654-656 | `/portal/docs/item` becomes `/docs/item` |
| Translation.PathOf | src/visaplan/plone/infohubs/hubs.py:682-683 | the traversal path has no leading slash, and is empty exactly when the value is all slashes |
| Translation.PathOfSlashes | src/visaplan/plone/infohubs/hubs.py:682-683 | any number of leading slashes is removed |
| Translation.SlashesStripped | src/visaplan/plone/infohubs/hubs.py:681-687 | `//a/b` is looked up like `a/b` |
| Translation.Specifier | src/visaplan/plone/infohubs/hubs.py:680-698 | other keys are ignored; an empty `path` or `uid` is not counted; a traversed path finds its object; a failed traversal counts but finds nothing for `AttributeError` and `KeyError` and raises otherwise; a `uid` raises the error of the catalog search, counts but finds nothing without a brain, and otherwise finds the first brain's object or raises the error of its `getObject()` |
| Translation.Scan | src/visaplan/plone/infohubs/hubs.py:680-707 | an object found is the one of the first item that finds one; when every item missed the result is `None` if some specifier counted and `ValueError` otherwise |
| Translation.ScanDecidedAt | src/visaplan/plone/infohubs/hubs.py:699-700 | the first item that finds an object or raises decides the loop |
| Translation.Localize | src/visaplan/plone/infohubs/hubs.py:709-740 | the object is kept without a current language, for an empty or equal language, or without `getTranslations`; for an object in another language: its first translation into the current one, `None` when there is none, the canonical object on `AttributeError` (the object itself when `getCanonical()` fails too), and any other error of `getTranslations` is raised |
| Translation.Resolve | src/visaplan/plone/infohubs/hubs.py:677-740 | the resolver raises exactly when the loop raises or the language step raises for its object; it answers `None` exactly when the loop finds nothing or the language step drops the object; an object the loop finds is answered as the language step gives it |
| Translation.Translated | src/visaplan/plone/infohubs/hubs.py:742 | the proxy normalises the dictionary; a known key is answered from the table, a fresh one resolved |
| Translation.SameSpecifiersResolvedOnce | src/visaplan/plone/infohubs/hubs.py:742 | dictionaries that differ only in order and `None` entries are resolved once |
| Translation.PathBeforeUid | src/visaplan/plone/infohubs/utils.py:150 | `path` sorts before `uid` |
| Translation.BeforePathIsNeither | src/visaplan/plone/infohubs/hubs.py:680-698 | an item sorted before `path` is ignored by the loop |
| Translation.PathWins | src/visaplan/plone/infohubs/hubs.py:680-700 | when the path leads to an object the uid is never consulted |
| Translation.NoSpecifierRaises | src/visaplan/plone/infohubs/hubs.py:702-706 | a dictionary without a non-empty `path` or `uid` raises `ValueError` |
| Translation.EmptyRaises | src/visaplan/plone/infohubs/hubs.py:702-706 | an empty dictionary raises `ValueError` |
| Translation.MissingPathIsNone | src/visaplan/plone/infohubs/hubs.py:686-707 | a path that cannot be traversed gives `None`, not an error |
| Translation.FoundInCurrentLanguage | src/visaplan/plone/infohubs/hubs.py:709-717 | an object in the current language is returned as it is |
| Translation.TranslationSubstituted | src/visaplan/plone/infohubs/hubs.py:717-735 | an object in another language is replaced by its first translation into the current one |
| Translation.UnreachableObjectRaises | src/visaplan/plone/infohubs/hubs.py:693-697 | a uid whose brain's object cannot be fetched makes the resolver raise that error |
| HubArgs.ContextAndFormTuple | src/visaplan/plone/infohubs/hubs2.py:26-51 | `TypeError` for half a hub pair, a context next to a pair, or neither form nor context without hubs; with `amend` and no hubs, `make_hubs(None)` raises `TypeError` and an error of `make_hubs` propagates; hubs are made only with `amend`, from the given context; a pair supplies the context; a given form is kept, a missing one is read from `info['request_var']` or the context's request, and an error of that read is raised; these are all the errors |
| HubArgs.ContextTuple | src/visaplan/plone/infohubs/hubs2.py:54-108 | `TypeError` for `self` together with `context`, for other keywords, for half a pair, or for no hubs, context or `self`; `AttributeError` for a `self` without a `context` attribute and `TypeError` for one whose `context` is `None`; without hubs fresh ones are made for the keyword or `self` context; with a pair the context is the given one or the info's, and under `strict` a different one is rejected |
| HubArgs.MakeHubs | src/visaplan/plone/infohubs/hubs.py:268 | `make_hubs(None)` raises `TypeError`, because the tools hub is `dict(None)`; any other context gives what the hub factory gives |
| HubArgs.HalfPairsRejected | src/visaplan/plone/infohubs/hubs2.py:32-100 | both helpers reject a hub without info and info without a hub with `TypeError` |
| HubArgs.HubsNeedAContext | src/visaplan/plone/infohubs/hubs2.py:36-97 | with `amend` and only a form, or with a caller whose `context` is `None`, making hubs raises `TypeError`; without `amend` the form alone is returned |
| HubArgs.UnreadableFormRaises | src/visaplan/plone/infohubs/hubs2.py:46-50 | a missing form whose request cannot be read, from the context or from `info`, makes `context_and_form_tuple` raise that `AttributeError` |
| HubArgs.PairDecidesContext | src/visaplan/plone/infohubs/hubs2.py:45-107 | with a hub pair and no context both helpers answer the info's context, and the form is the info's request variables, or the error reading them raises |
| HubArgs.StrictnessOfContext | src/visaplan/plone/infohubs/hubs2.py:101-107 | under `strict` the context returned with a hub pair is the info's; with `strict=False` a given context is returned as given |
| HubArgs.SelfOnlyAsLastResort | src/visaplan/plone/infohubs/hubs2.py:81-107 | with a hub and no context keyword, `self` makes no difference |
| Strings.Split | src/visaplan/plone/infohubs/hubs.py:616 | `split(sep)` gives at least one part, none holding the separator, and joining them gives back the text |
| Strings.SplitJoin | src/visaplan/plone/infohubs/hubs.py:616 | splitting joined separator-free parts gives the parts back |
| Strings.Words | src/visaplan/plone/infohubs/hubs.py:617 | every token of `split()` is non-empty and free of whitespace |
| Strings.WordsOfJoin | src/visaplan/plone/infohubs/hubs.py:617 | `split()` of words joined by spaces gives the words back |
| Strings.WordsSkipsWhitespace | src/visaplan/plone/infohubs/hubs.py:617 | leading whitespace is skipped; with the two lemmas below this determines `split()` on every text |
| Strings.WordsOfWord | src/visaplan/plone/infohubs/hubs.py:617 | a single word splits into itself |
| Strings.WordsOfWordThen | src/visaplan/plone/infohubs/hubs.py:617 | a word ended by whitespace is the first token and the rest of the text gives the others |
| Strings.WordsExample | src/visaplan/plone/infohubs/hubs.py:617 | `"a \t b".split()` is `["a", "b"]`: a run of mixed whitespace separates like one space |
| Strings.TrimStart | src/visaplan/plone/infohubs/hubs.py:683 | `lstrip` removes the longest prefix of dropped characters and nothing else |
| Numerals.ParseInt | src/visaplan/plone/infohubs/hubs.py:618 | `int()` succeeds exactly on signed decimal text; otherwise `ValueError` |
| Numerals.ParseShow | src/visaplan/plone/infohubs/hubs.py:618 | `int(str(n)) == n` |

## Left out

- Numerals.ParseInt: accepts an optional sign and ASCII digits only. Python's `int()` also allows surrounding whitespace, underscores between digits and other Unicode digits. The size lines reach `int()` already split on whitespace, so only the last two differences remain.
- Strings.Words: separates at tab, line feed, vertical tab, form feed, carriage return and space only. Python 3's `str.split()` and `str.strip()` also treat `\x1c`–`\x1f` and the other Unicode whitespace as separators.
- HubArgs.ContextTuple: object identity (`is`) is modelled as equality.
- HubArgs.MakeHubs: a context other than `None` is handed to a hub factory parameter; which other contexts `dict()` rejects is not modelled.
- Factories.Uid2Brain: a brain's `getObject()` gives an object or raises; a brain whose object is `None` is not modelled.
- GroupId.DetectGroupId: the session read is a value, `None` when nothing is stored. Writing the session is the `written` result.
- `UniqueStack`, `Proxy`, `PrefixingMap` and `make_width_getter` come from `visaplan.tools` and are not part of this model. `UniqueStack` is assumed to remove an existing occurrence before pushing, and to compare equal to a list with the same items. `Proxy` is assumed to memoise like the hubs, after normalising its argument, and to hand back what its function returns, `None` included.
- Factories.Uid2FullPath: takes the outcome of `info['uid2brain'][uid]` as a parameter, so its `KeyError` case covers a `Proxy` that raises on a miss; under the `Proxy` assumption above that case does not arise. `Factories.Uid2Path` likewise.
- Translation.Specifier: a uid without a brain counts but finds nothing, which rests on the `Proxy` assumption above. A `Proxy` that raised `KeyError` on a miss would make `get_translated` raise it instead.
- Zope and Plone lookups are function parameters: `getToolByName`, `getComponentAdapter`, `restrictedTraverse`, catalog searches, `getTranslations`, `getCanonical`, membership tests and the session. They are foreign calls.
- Optional-dependency detection and the entries it adds to `NAMED_ADAPTERS` are packaging plumbing. The table is the fixed set of abbreviations.
- Factories that only forward to external services are left out as foreign calls: `uid2url`, the PDF creator, the session proxy, group titles, export profiles, the template and URL getters, and the portal objects.
- `make_permission_proxy` and `check_permission` are left out. They hold unconditional debugger calls.
- The timestamp, the thread ident and `get_portal_and_site` are left out. They are clock or debugging output.
- Logging and `print` output are side effects with no bearing on results. This includes the debug branch of `ToolsHub.__getitem__`.
- `browser/browser.py` and `__init__.py` are not part of this model. They hold a view wrapper and re-exports.
- Nested resolution is not modelled in full. An info factory may read other names of the hub, so it is modelled as a computation over the current entries. Which names it reads is not modelled.
