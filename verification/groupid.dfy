/** The desktop group of a request (`info['gid']`, `detect_group_id`), the
    cooperating groups of the context and the group of the management
    views (`managed_group_id`).

    The desktop group is either given explicitly by the request variable
    `gid`, which is then pushed on the unique stack kept in the session, or
    derived from that stack, newest entry first, and the groups cooperating
    on the context.
 */
module GroupId {
  import opened Outcomes
  import opened UniqueStacks

  /** An item of the stored stack: a group id, or `None` for the personal
      desktop. */
  type Slot = Option<string>

  /** What `detect_group_id` reads from the hubs. `stored` is the raw
      session value, `None` when nothing was stored; `form` is the request
      variables. */
  datatype Request = Request(
    stored: Option<seq<Slot>>,
    form: map<string, string>,
    portalType: string,
    cooperating: seq<string>,
    isMemberOf: string -> bool,
    isMine: bool)

  /** The group id found, and the stack written to the session, if any. */
  datatype Outcome = Outcome(gid: Option<string>, written: Option<seq<Slot>>)

  /** The answer when no group can be derived for another user's object. */
  const ErrorGid: string := "ERROR"

  /** An explicit group id: `'None'` and the empty string mean the
      personal desktop. */
  function NormalizeGid(g: string): (r: Option<string>)
    ensures r.None? <==> g == "None" || g == ""
    ensures r.Some? ==> r.value == g
  {
    if g == "None" || g == "" then None else Some(g)
  }

  /** `groups_raw or []`: nothing stored reads as an empty stack. */
  function StoredOrEmpty(stored: Option<seq<Slot>>): (r: seq<Slot>)
    ensures r == [] <==> stored.None? || stored.value == []
    ensures stored.Some? ==> r == stored.value
  {
    if stored.Some? then stored.value else []
  }

  /** A stack item that ends the scan for the personal desktop. */
  predicate IsDesktopMark(s: Slot) {
    s.None? || s.value == "None"
  }

  /** The marks on the stack are the explicit ids that `NormalizeGid`
      turns into the personal desktop, except the empty string, which
      `detect_group_id` never stores. */
  lemma DesktopMarkLikeNormalized(g: string)
    ensures IsDesktopMark(Some(g)) <==> NormalizeGid(g).None? && g != ""
    ensures IsDesktopMark(None)
  {
  }

  /** A stack item at which the newest-first scan ends: the personal
      desktop, or a cooperating group the user is a member of. */
  predicate Stops(q: Request, s: Slot) {
    IsDesktopMark(s) || (s.value in q.cooperating && q.isMemberOf(s.value))
  }

  /** The index of the newest stack item at which the scan ends. */
  function NewestStop(q: Request, stack: seq<Slot>): (r: Option<nat>)
    ensures r.Some? ==> r.value < |stack| && Stops(q, stack[r.value])
                        && forall k :: r.value < k < |stack| ==> !Stops(q, stack[k])
    ensures r.None? ==> forall k :: 0 <= k < |stack| ==> !Stops(q, stack[k])
    decreases |stack|
  {
    if |stack| == 0 then None
    else if Stops(q, stack[|stack| - 1]) then Some(|stack| - 1)
    else NewestStop(q, stack[..|stack| - 1])
  }

  /** The first group of `groups` the user is a member of. */
  function FirstMember(groups: seq<string>, isMemberOf: string -> bool): (r: Option<string>)
    ensures r.Some? ==> r.value in groups && isMemberOf(r.value)
    ensures r.None? <==> forall k :: 0 <= k < |groups| ==> !isMemberOf(groups[k])
    ensures r.Some? ==> exists k :: 0 <= k < |groups| && groups[k] == r.value
                                    && forall j :: 0 <= j < k ==> !isMemberOf(groups[j])
  {
    if |groups| == 0 then None
    else if isMemberOf(groups[0]) then Some(groups[0])
    else
      var r := FirstMember(groups[1..], isMemberOf);
      if r.Some? then
        ghost var k :| 0 <= k < |groups[1..]| && groups[1..][k] == r.value
                      && forall j :: 0 <= j < k ==> !isMemberOf(groups[1..][j]);
        assert groups[k + 1] == r.value;
        r
      else r
  }

  /** The outcome `detect_group_id` is meant to have, stated without the
      mutable copy of the cooperating groups: the explicit group if one is
      asked for; for a folder the last cooperating group; otherwise the
      newest stack item that ends the scan, else `None` on the user's own
      object, else the first cooperating group the user is a member of,
      else `'ERROR'`. */
  function Resolution(q: Request): Outcome {
    var stack := FromSeq(StoredOrEmpty(q.stored));
    if "gid" in q.form then
      var g := NormalizeGid(q.form["gid"]);
      var pushed := Push(stack, g);
      Outcome(g, if q.stored.None? || pushed != q.stored.value then Some(pushed) else None)
    else if q.portalType == "Folder" then
      Outcome(if |q.cooperating| > 0 then Some(q.cooperating[|q.cooperating| - 1]) else None, None)
    else
      match NewestStop(q, stack)
      case Some(i) => Outcome(if IsDesktopMark(stack[i]) then None else stack[i], None)
      case None =>
        if q.isMine then Outcome(None, None)
        else
          var m := FirstMember(q.cooperating, q.isMemberOf);
          Outcome(if m.Some? then m else Some(ErrorGid), None)
  }

  /** `list.remove(x)`: drops the first occurrence of `x`. */
  function RemoveFirst(groups: seq<string>, x: string): (r: seq<string>)
    requires x in groups
    ensures |r| == |groups| - 1
    ensures forall y :: y != x ==> (y in r <==> y in groups)
    decreases |groups|
  {
    if groups[0] == x then groups[1..] else [groups[0]] + RemoveFirst(groups[1..], x)
  }

  /** Dropping a group the user is not a member of does not change the
      first group the user is a member of. */
  lemma {:induction false} RemoveNonMember(groups: seq<string>, x: string, isMemberOf: string -> bool)
    requires x in groups && !isMemberOf(x)
    ensures FirstMember(RemoveFirst(groups, x), isMemberOf) == FirstMember(groups, isMemberOf)
    decreases |groups|
  {
    if groups[0] != x {
      RemoveNonMember(groups[1..], x, isMemberOf);
      assert ([groups[0]] + RemoveFirst(groups[1..], x))[1..] == RemoveFirst(groups[1..], x);
    }
  }

  /** `detect_group_id` as written: the session stack is scanned newest
      first on a copy of the cooperating groups from which every group
      the user is not a member of is removed when it is met. */
  method DetectGroupId(q: Request) returns (gid: Option<string>, written: Option<seq<Slot>>)
    ensures Outcome(gid, written) == Resolution(q)
    ensures "gid" !in q.form ==> written.None?
    ensures "gid" in q.form ==> gid == NormalizeGid(q.form["gid"])
    ensures "gid" !in q.form && q.portalType != "Folder" && gid.Some? && gid.value != ErrorGid ==>
              gid.value in q.cooperating && q.isMemberOf(gid.value)
  {
    var stack := FromSeq(StoredOrEmpty(q.stored));
    if "gid" in q.form {
      gid := NormalizeGid(q.form["gid"]);
      var pushed := Push(stack, gid);
      written := if q.stored.None? || pushed != q.stored.value then Some(pushed) else None;
      return;
    }
    written := None;
    var coop := q.cooperating;
    if q.portalType == "Folder" {
      gid := if |coop| > 0 then Some(coop[|coop| - 1]) else None;
      return;
    }
    FromSeqIsUnique(StoredOrEmpty(q.stored));
    var i := |stack|;
    while i > 0
      invariant 0 <= i <= |stack|
      invariant forall k :: i <= k < |stack| ==> !Stops(q, stack[k])
      invariant forall k :: 0 <= k < i && stack[k].Some? ==>
                  (stack[k].value in coop <==> stack[k].value in q.cooperating)
      invariant FirstMember(coop, q.isMemberOf) == FirstMember(q.cooperating, q.isMemberOf)
      decreases i
    {
      i := i - 1;
      var s := stack[i];
      if IsDesktopMark(s) {
        gid := None;
        assert NewestStop(q, stack) == Some(i) by { StopIsNewest(q, stack, i); }
        return;
      }
      if s.value in coop {
        if q.isMemberOf(s.value) {
          gid := s;
          assert NewestStop(q, stack) == Some(i) by { StopIsNewest(q, stack, i); }
          return;
        }
        RemoveNonMember(coop, s.value, q.isMemberOf);
        forall k | 0 <= k < i && stack[k].Some?
          ensures stack[k].value != s.value
        {
          assert stack[k] != stack[i];
        }
        coop := RemoveFirst(coop, s.value);
      }
    }
    assert NewestStop(q, stack).None? by { NoStop(q, stack); }
    if q.isMine {
      gid := None;
      return;
    }
    var m := ScanMembers(coop, q.isMemberOf);
    gid := if m.Some? then m else Some(ErrorGid);
  }

  /** The final loop of `detect_group_id`: the first remaining cooperating
      group the user is a member of. */
  method ScanMembers(groups: seq<string>, isMemberOf: string -> bool) returns (m: Option<string>)
    ensures m == FirstMember(groups, isMemberOf)
  {
    var j := 0;
    while j < |groups|
      invariant 0 <= j <= |groups|
      invariant FirstMember(groups[j..], isMemberOf) == FirstMember(groups, isMemberOf)
    {
      if isMemberOf(groups[j]) {
        return Some(groups[j]);
      }
      assert groups[j..][1..] == groups[j + 1..];
      j := j + 1;
    }
    return None;
  }

  /** The scan's own stopping point is the one the reference names. */
  lemma StopIsNewest(q: Request, stack: seq<Slot>, i: nat)
    requires i < |stack| && Stops(q, stack[i])
    requires forall k :: i < k < |stack| ==> !Stops(q, stack[k])
    ensures NewestStop(q, stack) == Some(i)
  {
  }

  lemma NoStop(q: Request, stack: seq<Slot>)
    requires forall k :: 0 <= k < |stack| ==> !Stops(q, stack[k])
    ensures NewestStop(q, stack).None?
  {
  }

  /** With an explicit group id the session is written exactly when the
      pushed stack differs from what was stored: for a stack that was
      stored without repetitions, exactly when nothing was stored yet or
      another group was on top. */
  lemma {:induction false} ExplicitWritesOnChange(q: Request)
    requires "gid" in q.form
    requires q.stored.Some? ==> Unique(q.stored.value)
    ensures var g := NormalizeGid(q.form["gid"]);
            Resolution(q).written.None? <==>
              q.stored.Some? && |q.stored.value| > 0 && q.stored.value[|q.stored.value| - 1] == g
  {
    if q.stored.Some? {
      FromUnique(q.stored.value);
      PushUnchangedIff(q.stored.value, NormalizeGid(q.form["gid"]));
    }
  }

  /** A written stack has the new group on top and holds every group that
      was stored before. */
  lemma ExplicitGroupOnTop(q: Request)
    requires "gid" in q.form && Resolution(q).written.Some?
    ensures var w := Resolution(q).written.value;
            |w| > 0 && w[|w| - 1] == NormalizeGid(q.form["gid"]) && Unique(w)
  {
    FromSeqIsUnique(StoredOrEmpty(q.stored));
    PushKeepsUnique(FromSeq(StoredOrEmpty(q.stored)), NormalizeGid(q.form["gid"]));
  }

  /** Without a group preference, with no cooperating group the user is a
      member of and on another user's object, the result is `'ERROR'`
      unless the stack holds a personal-desktop mark. */
  lemma ErrorWithoutMembership(q: Request)
    requires "gid" !in q.form && q.portalType != "Folder" && !q.isMine
    requires forall k :: 0 <= k < |q.cooperating| ==> !q.isMemberOf(q.cooperating[k])
    requires forall s :: s in StoredOrEmpty(q.stored) ==> !IsDesktopMark(s)
    ensures Resolution(q).gid == Some(ErrorGid)
  {
    var stack := FromSeq(StoredOrEmpty(q.stored));
    forall k | 0 <= k < |stack|
      ensures !Stops(q, stack[k])
    {
      FromSeqMembers(StoredOrEmpty(q.stored), stack[k]);
      if stack[k].Some? && stack[k].value in q.cooperating {
        var j :| 0 <= j < |q.cooperating| && q.cooperating[j] == stack[k].value;
      }
    }
    NoStop(q, stack);
  }

  lemma {:induction false} FromSeqMembers<T(!new)>(items: seq<T>, x: T)
    ensures x in FromSeq(items) ==> x in items
    decreases |items|
  {
    if |items| > 0 {
      FromSeqMembers(items[..|items| - 1], x);
      if x in FromSeq(items) && x != items[|items| - 1] {
        assert x in FromSeq(items[..|items| - 1]);
      }
    }
  }

  /** The newest stack item decides when it is a cooperating group the
      user belongs to. */
  lemma NewestMemberGroupWins(q: Request, g: string)
    requires "gid" !in q.form && q.portalType != "Folder"
    requires q.stored.Some? && Unique(q.stored.value)
    requires |q.stored.value| > 0 && q.stored.value[|q.stored.value| - 1] == Some(g)
    requires g != "None" && g in q.cooperating && q.isMemberOf(g)
    ensures Resolution(q).gid == Some(g)
  {
    FromUnique(q.stored.value);
  }

  /** A personal-desktop mark on top of the stack selects the personal
      desktop. */
  lemma DesktopMarkOnTop(q: Request)
    requires "gid" !in q.form && q.portalType != "Folder"
    requires q.stored.Some? && Unique(q.stored.value)
    requires |q.stored.value| > 0 && IsDesktopMark(q.stored.value[|q.stored.value| - 1])
    ensures Resolution(q).gid.None?
  {
    FromUnique(q.stored.value);
  }

  /** On the user's own object, stacked groups the user does not belong to
      are passed over and the personal desktop wins over cooperation. */
  lemma OwnObjectPrefersDesktop(q: Request)
    requires "gid" !in q.form && q.portalType != "Folder" && q.isMine
    requires forall k :: 0 <= k < |q.cooperating| ==> !q.isMemberOf(q.cooperating[k])
    requires forall s :: s in StoredOrEmpty(q.stored) ==> !IsDesktopMark(s)
    ensures Resolution(q).gid.None?
  {
    var stack := FromSeq(StoredOrEmpty(q.stored));
    forall k | 0 <= k < |stack|
      ensures !Stops(q, stack[k])
    {
      FromSeqMembers(StoredOrEmpty(q.stored), stack[k]);
      if stack[k].Some? && stack[k].value in q.cooperating {
        var j :| 0 <= j < |q.cooperating| && q.cooperating[j] == stack[k].value;
      }
    }
    NoStop(q, stack);
  }

  /** `detect_cooperating_groups`: none on a folder, and none when the
      context has no groups or cannot tell (`getUnitraccGroups` missing or
      raising); `groups` is the outcome of that call. */
  function CooperatingGroups(portalType: string, groups: Result<Option<seq<string>>>): (r: seq<string>)
    ensures portalType == "Folder" ==> r == []
    ensures groups.Err? || (groups.Ok? && groups.value.None?) ==> r == []
    ensures portalType != "Folder" && groups.Ok? && groups.value.Some? ==> r == groups.value.value
  {
    if portalType == "Folder" then []
    else match groups
      case Ok(Some(g)) => g
      case _ => []
  }

  /** The folder branch pops the last cooperating group, but on a folder
      the cooperating groups are always empty: without a group preference
      the desktop group of a folder is `None`. */
  lemma FolderMeansDesktop(q: Request, groups: Result<Option<seq<string>>>)
    requires "gid" !in q.form && q.portalType == "Folder"
    requires q.cooperating == CooperatingGroups(q.portalType, groups)
    ensures Resolution(q) == Outcome(None, None)
  {
  }

  /** For an anonymous user (whose membership test always answers no) the
      derived group is the personal desktop or `'ERROR'`, never a group. */
  lemma AnonymousGetsNoGroup(q: Request)
    requires "gid" !in q.form && q.portalType != "Folder"
    requires forall g :: !q.isMemberOf(g)
    ensures Resolution(q).gid.None? || Resolution(q).gid == Some(ErrorGid)
  {
  }

  /** `managed_group_id`: the request variable `group_id`, where `'None'`
      and the empty string mean no group. */
  function ManagedGroupId(form: map<string, string>): (r: Option<string>)
    ensures r.None? <==> "group_id" !in form || form["group_id"] == "None" || form["group_id"] == ""
    ensures r.Some? ==> r.value == form["group_id"]
  {
    if "group_id" !in form then None
    else if form["group_id"] == "None" then None
    else if form["group_id"] == "" then None
    else Some(form["group_id"])
  }

  /** The management group id is normalised like an explicit desktop
      group. */
  lemma ManagedLikeExplicit(form: map<string, string>)
    requires "group_id" in form
    ensures ManagedGroupId(form) == NormalizeGid(form["group_id"])
  {
  }
}
