/** The abstract algorithm behind dropprivs: clear the supplementary groups,
    set the group ids, set the user ids, stopping at the first call that
    fails, then check the live ids.  The two platforms differ only in the list
    of calls they make. */
module Privsep {

  /** The credentials of a process. */
  datatype Ids = Ids(ruid: nat, euid: nat, suid: nat,
                     rgid: nat, egid: nat, sgid: nat,
                     groups: seq<nat>)

  /** The credential-changing calls dropprivs makes. */
  datatype Step =
    | SetGroups   // setgroups(1, &gid)
    | SetResGid   // setresgid(gid, gid, gid)
    | SetEGid     // setegid(gid)
    | SetGid      // setgid(gid)
    | SetEUid     // seteuid(uid)
    | SetUid      // setuid(uid)
    | SetResUid   // setresuid(uid, uid, uid)

  /** How one call turns out: it fails (returns -1), it succeeds with its
      documented effect, or it returns 0 without changing anything. */
  datatype Call = CallFails | CallSucceeds | CallNoEffect

  datatype Platform = OpenBSD | Portable

  /** The calls each platform makes, in order. */
  function Steps(p: Platform): (s: seq<Step>)
    ensures |s| > 0 && s[0] == SetGroups
  {
    match p
    case OpenBSD => [SetGroups, SetResGid, SetResUid]
    case Portable => [SetGroups, SetEGid, SetGid, SetEUid, SetUid]
  }

  /** The documented effect of a call that succeeds, for a process that may
      still change its credentials. */
  function Apply(s: Step, ids: Ids, uid: nat, gid: nat): Ids
  {
    match s
    case SetGroups => ids.(groups := [gid])
    case SetResGid => ids.(rgid := gid, egid := gid, sgid := gid)
    case SetEGid => ids.(egid := gid)
    case SetGid => ids.(rgid := gid, egid := gid, sgid := gid)
    case SetEUid => ids.(euid := uid)
    case SetUid => ids.(ruid := uid, euid := uid, suid := uid)
    case SetResUid => ids.(ruid := uid, euid := uid, suid := uid)
  }

  /** The credentials after a run of calls, and whether one of them failed. */
  datatype Run = Run(ids: Ids, failed: bool)

  /** Makes the calls in order and stops at the first that fails, as the
      `||` chain does. */
  function RunSteps(steps: seq<Step>, calls: seq<Call>, ids: Ids, uid: nat, gid: nat): (r: Run)
    requires |calls| == |steps|
    ensures r.failed <==> CallFails in calls
    decreases |steps|
  {
    if steps == [] then Run(ids, false)
    else
      assert calls == [calls[0]] + calls[1..];
      match calls[0]
      case CallFails => Run(ids, true)
      case CallNoEffect => RunSteps(steps[1..], calls[1..], ids, uid, gid)
      case CallSucceeds => RunSteps(steps[1..], calls[1..], Apply(steps[0], ids, uid, gid), uid, gid)
  }

  /** The closing check: real and effective group and user ids all equal the
      targets (getgid, getegid, getuid, geteuid). */
  predicate Verified(ids: Ids, uid: nat, gid: nat): (v: bool)
    ensures v <==> forall f: Field :: f != SUid && f != SGid ==> Get(ids, f) == Target(f, uid, gid)
  {
    assert Get(ids, RUid) == ids.ruid && Get(ids, EUid) == ids.euid;
    assert Get(ids, RGid) == ids.rgid && Get(ids, EGid) == ids.egid;
    ids.rgid == gid && ids.egid == gid && ids.ruid == uid && ids.euid == uid
  }

  /** dropprivs reports success. */
  predicate DropSucceeds(p: Platform, ids: Ids, uid: nat, gid: nat, calls: seq<Call>): (d: bool)
    requires |calls| == |Steps(p)|
    ensures d ==> CallFails !in calls
    ensures d ==> forall f: Field :: f != SUid && f != SGid ==>
      Get(RunSteps(Steps(p), calls, ids, uid, gid).ids, f) == Target(f, uid, gid)
  {
    var r := RunSteps(Steps(p), calls, ids, uid, gid);
    !r.failed && Verified(r.ids, uid, gid)
  }

  /** Once a call fails, the calls after it are never made: the run ends with
      the credentials left by the calls before it. */
  lemma {:induction false} StopsAtFirstFailure(steps: seq<Step>, calls: seq<Call>, ids: Ids,
                                               uid: nat, gid: nat, i: nat)
    requires |calls| == |steps| && i < |calls|
    requires calls[i] == CallFails && CallFails !in calls[..i]
    ensures RunSteps(steps, calls, ids, uid, gid)
            == Run(RunSteps(steps[..i], calls[..i], ids, uid, gid).ids, true)
  {
    if i > 0 {
      assert calls[0] in calls[..i];
      var next := if calls[0] == CallSucceeds then Apply(steps[0], ids, uid, gid) else ids;
      assert calls[1..][..i - 1] == calls[..i][1..];
      assert steps[1..][..i - 1] == steps[..i][1..];
      assert CallFails !in calls[..i][1..];
      StopsAtFirstFailure(steps[1..], calls[1..], next, uid, gid, i - 1);
    }
  }

  /** An id field of the credentials. */
  datatype Field = RUid | EUid | SUid | RGid | EGid | SGid

  function Get(ids: Ids, f: Field): nat
  {
    match f
    case RUid => ids.ruid
    case EUid => ids.euid
    case SUid => ids.suid
    case RGid => ids.rgid
    case EGid => ids.egid
    case SGid => ids.sgid
  }

  /** Whether a successful call of this kind writes the field. */
  predicate Sets(s: Step, f: Field)
  {
    match f
    case RUid => s == SetUid || s == SetResUid
    case EUid => s == SetEUid || s == SetUid || s == SetResUid
    case SUid => s == SetUid || s == SetResUid
    case RGid => s == SetGid || s == SetResGid
    case EGid => s == SetEGid || s == SetGid || s == SetResGid
    case SGid => s == SetGid || s == SetResGid
  }

  /** A field that no call sets with effect keeps its value, whatever the
      other calls do. */
  lemma {:induction false} UnsetFieldKept(steps: seq<Step>, calls: seq<Call>, ids: Ids,
                                          uid: nat, gid: nat, f: Field)
    requires |calls| == |steps|
    requires forall i :: 0 <= i < |steps| && Sets(steps[i], f) ==> calls[i] != CallSucceeds
    ensures Get(RunSteps(steps, calls, ids, uid, gid).ids, f) == Get(ids, f)
  {
    if steps != [] && calls[0] != CallFails {
      var next := if calls[0] == CallSucceeds then Apply(steps[0], ids, uid, gid) else ids;
      assert Get(next, f) == Get(ids, f) by {
        if calls[0] == CallSucceeds {
          assert !Sets(steps[0], f);
        }
      }
      forall i | 0 <= i < |steps[1..]| && Sets(steps[1..][i], f)
        ensures calls[1..][i] != CallSucceeds
      {
        assert steps[1..][i] == steps[i + 1];
      }
      UnsetFieldKept(steps[1..], calls[1..], next, uid, gid, f);
    }
  }

  /** The field's target in the closing check. */
  function Target(f: Field, uid: nat, gid: nat): nat
  {
    if f in {RUid, EUid, SUid} then uid else gid
  }

  /** A call that "succeeds" without changing an id is caught: if none of the
      calls that could set a checked id took effect and that id was not
      already the target, dropprivs fails. */
  lemma SilentCallRejected(p: Platform, ids: Ids, uid: nat, gid: nat, calls: seq<Call>, f: Field)
    requires |calls| == |Steps(p)|
    requires f != SUid && f != SGid && Get(ids, f) != Target(f, uid, gid)
    requires forall i :: 0 <= i < |Steps(p)| && Sets(Steps(p)[i], f) ==> calls[i] != CallSucceeds
    ensures !DropSucceeds(p, ids, uid, gid, calls)
  {
    UnsetFieldKept(Steps(p), calls, ids, uid, gid, f);
  }

  /** When every call takes effect, dropprivs succeeds on both platforms and
      leaves every id, saved ones included, at the target and the group list
      holding the target group alone. */
  lemma AllCallsTakeEffect(p: Platform, ids: Ids, uid: nat, gid: nat)
    ensures var calls := seq(|Steps(p)|, _ => CallSucceeds);
      var r := RunSteps(Steps(p), calls, ids, uid, gid);
      DropSucceeds(p, ids, uid, gid, calls) &&
      r.ids == Ids(uid, uid, uid, gid, gid, gid, [gid])
  {
    var steps, calls := Steps(p), seq(|Steps(p)|, _ => CallSucceeds);
    var n := |steps|;
    var after := Ids(uid, uid, uid, gid, gid, gid, [gid]);
    assert RunSteps(steps[n..], calls[n..], after, uid, gid) == Run(after, false);
    match p
    case OpenBSD =>
      var i1 := Apply(SetGroups, ids, uid, gid);
      var i2 := Apply(SetResGid, i1, uid, gid);
      assert RunSteps(steps[2..], calls[2..], i2, uid, gid) == Run(after, false);
      assert RunSteps(steps[1..], calls[1..], i1, uid, gid) == Run(after, false);
    case Portable =>
      var i1 := Apply(SetGroups, ids, uid, gid);
      var i2 := Apply(SetEGid, i1, uid, gid);
      var i3 := Apply(SetGid, i2, uid, gid);
      var i4 := Apply(SetEUid, i3, uid, gid);
      assert RunSteps(steps[4..], calls[4..], i4, uid, gid) == Run(after, false);
      assert RunSteps(steps[3..], calls[3..], i3, uid, gid) == Run(after, false);
      assert RunSteps(steps[2..], calls[2..], i2, uid, gid) == Run(after, false);
      assert RunSteps(steps[1..], calls[1..], i1, uid, gid) == Run(after, false);
  }

  /** Every call on group ids comes before every call on user ids. */
  lemma GroupsBeforeUser(p: Platform, i: nat, j: nat)
    requires i < |Steps(p)| && j < |Steps(p)|
    requires Sets(Steps(p)[i], EGid) && Sets(Steps(p)[j], EUid)
    ensures i < j
  {
  }

  /** The closing check does not look at the supplementary groups: a
      setgroups that returns 0 without effect leaves group 5 in the list of a
      process that passes it. */
  lemma GroupsNotChecked()
    ensures var ids := Ids(0, 0, 0, 0, 0, 0, [0, 5]);
      var calls := [CallNoEffect, CallSucceeds, CallSucceeds];
      DropSucceeds(OpenBSD, ids, 1000, 1000, calls) &&
      RunSteps(Steps(OpenBSD), calls, ids, 1000, 1000).ids.groups == [0, 5]
  {
  }

  /** The closing check does not look at the saved ids: a process whose real
      user id already is the target (a set-user-id program run by that user)
      passes it even though setuid left its saved user id at 0. */
  lemma SavedUidNotChecked()
    ensures var ids := Ids(1000, 0, 0, 0, 0, 0, [0]);
      var calls := [CallSucceeds, CallSucceeds, CallSucceeds, CallSucceeds, CallNoEffect];
      DropSucceeds(Portable, ids, 1000, 1000, calls) &&
      RunSteps(Steps(Portable), calls, ids, 1000, 1000).ids.suid == 0
  {
  }
}
