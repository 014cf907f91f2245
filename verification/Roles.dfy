/** Every transaction that is executing, suspended or aborting has exactly one thread in charge. */
module Roles {
  import opened Base
  import opened Machine
  import opened Invariant
  import opened Threads

  /** The steps that may change the status of a transaction. */
  predicate ChangesStatus(pc: Pc)
  {
    match pc
    case Guarded(h) => h.ExecuteIncarnate?
    case Task(_, Checking(c)) => c.TryAbort?
    case Task(_, Undoing(Mark(keys))) => keys == {}
    case Task(_, Redoing(r)) => r.Reincarnate?
    case Task(_, Running(_, e)) => e.Suspend? || e.SetExecuted?
    case Task(_, Closing(_, Resume(rest, _))) => rest != []
    case _ => false
  }

  lemma StatusFootprint(b: Block, g: Shared, t: nat, pc: Pc, g': Shared, pc': Pc)
    requires Step(b, g, t, pc, g', pc') && !pc'.Panicked? && !ChangesStatus(pc)
    ensures g'.txnStatus == g.txnStatus && g'.owner == g.owner
    ensures HasRole(pc) == HasRole(pc')
    ensures HasRole(pc) ==>
              && pc'.ver == pc.ver
              && (forall st :: Fits(st, pc) && (pc.w.Running? && pc.w.e.Wait? ==> st.Executing?) ==> Fits(st, pc'))
  {
    if pc.Task? && pc.w.Running? { assert RunStep(b, g, t, pc.ver, pc.w.log, pc.w.e, g', pc'); }
  }

  /** The owner moves, and the status of its transaction becomes `st`. */
  lemma OwnerMoves(b: Block, s: State, t: nat, s': State, st: Status)
    requires Sized(b, s.g) && Sized(b, s'.g) && RolesOk(b, s) && Moved(s, t, s')
    requires HasRole(s.threads[t])
    requires var i := s.threads[t].ver.txn;
             && s'.g.txnStatus == s.g.txnStatus[i := st]
             && (|| (s'.g.owner == s.g.owner && HasRole(s'.threads[t]) && s'.threads[t].ver.txn == i &&
                Fits(st, s'.threads[t]))
                 || (s'.g.owner == s.g.owner[i := None] && !HasRole(s'.threads[t]) &&
                    (st.Executed? || (st.Ready? && st.cv.None?))))
    ensures RolesOk(b, s')
  {
    forall j | 0 <= j < |b.txns| ensures OwnerOk(s', j) { assert OwnerOk(s, j); }
    forall u | 0 <= u < |s'.threads| ensures RoleOk(s'.g, u, s'.threads[u]) { assert RoleOk(s.g, u, s.threads[u]); }
  }

  /** A thread takes charge of a transaction that had no owner. */
  lemma Claims(b: Block, s: State, t: nat, s': State)
    requires Sized(b, s.g) && Sized(b, s'.g) && RolesOk(b, s) && Moved(s, t, s')
    requires !HasRole(s.threads[t]) && HasRole(s'.threads[t])
    requires var i := s'.threads[t].ver.txn;
             && i < |b.txns| && s.g.owner[i] == None
             && s'.g.owner == s.g.owner[i := Some(t)]
             && s'.g.txnStatus == s.g.txnStatus[i := s'.g.txnStatus[i]]
             && Fits(s'.g.txnStatus[i], s'.threads[t])
    ensures RolesOk(b, s')
  {
    forall j | 0 <= j < |b.txns| ensures OwnerOk(s', j) { assert OwnerOk(s, j); }
    forall u | 0 <= u < |s'.threads| ensures RoleOk(s'.g, u, s'.threads[u]) { assert RoleOk(s.g, u, s.threads[u]); }
  }

  /** A thread without role moves, and the status of a transaction changes under its owner. */
  lemma OwnedChanges(b: Block, s: State, t: nat, s': State, i: nat)
    requires Sized(b, s.g) && Sized(b, s'.g) && RolesOk(b, s) && Moved(s, t, s')
    requires !HasRole(s.threads[t]) && !HasRole(s'.threads[t])
    requires i < |b.txns| && OwnerOk(s, i) && s.g.owner[i].Some? && s'.g.owner == s.g.owner
    requires s'.g.txnStatus == s.g.txnStatus[i := s'.g.txnStatus[i]]
    requires Fits(s'.g.txnStatus[i], s.threads[s.g.owner[i].value])
    ensures RolesOk(b, s')
  {
    forall j | 0 <= j < |b.txns| ensures OwnerOk(s', j) { assert OwnerOk(s, j); }
    forall u | 0 <= u < |s'.threads| ensures RoleOk(s'.g, u, s'.threads[u]) { assert RoleOk(s.g, u, s.threads[u]); }
  }

  /** A transaction without owner keeps its status unless a thread claims it. */
  lemma NoRoleFrame(b: Block, s: State, t: nat, s': State)
    requires Sized(b, s.g) && Sized(b, s'.g) && RolesOk(b, s) && Moved(s, t, s')
    requires !HasRole(s.threads[t]) && !HasRole(s'.threads[t])
    requires s'.g.owner == s.g.owner && s'.g.txnStatus == s.g.txnStatus
    ensures RolesOk(b, s')
  {
    forall j | 0 <= j < |b.txns| ensures OwnerOk(s', j) { assert OwnerOk(s, j); }
    forall u | 0 <= u < |s'.threads| ensures RoleOk(s'.g, u, s'.threads[u]) { assert RoleOk(s.g, u, s.threads[u]); }
  }

  lemma OwnerFits(b: Block, s: State, i: nat)
    requires Sized(b, s.g) && RolesOk(b, s) && i < |b.txns|
    ensures OwnerOk(s, i)
    ensures s.g.owner[i].Some? ==> RoleOk(s.g, s.g.owner[i].value, s.threads[s.g.owner[i].value])
    ensures s.g.owner[i].None? <==> s.g.txnStatus[i].Executed? || (s.g.txnStatus[i].Ready? && s.g.txnStatus[i].cv.None?)
  {
    assert OwnerOk(s, i);
    if s.g.owner[i].Some? { assert RoleOk(s.g, s.g.owner[i].value, s.threads[s.g.owner[i].value]); }
  }

  lemma IncarnateRoles(b: Block, s: State, t: nat, s': State, i: nat)
    requires Sized(b, s.g) && RolesOk(b, s) && Moved(s, t, s') && !HasRole(s.threads[t]) && i < |b.txns|
    requires TryIncarnate(b, s.g, t, i, s'.g, s'.threads[t])
    ensures Sized(b, s'.g) && RolesOk(b, s')
  {
    OwnerFits(b, s, i);
    match s.g.txnStatus[i]
    case Ready(_, None) => Claims(b, s, t, s');
    case Ready(_, Some(_)) => OwnedChanges(b, s, t, s', i);
    case _ => NoRoleFrame(b, s, t, s');
  }

  lemma ResumeRoles(b: Block, s: State, t: nat, s': State, ver: Version, outside: bool, rest: seq<nat>,
                    low: Option<nat>)
    requires Sized(b, s.g) && RolesOk(b, s) && Moved(s, t, s')
    requires s.threads[t] == Task(ver, Closing(outside, Resume(rest, low))) && rest != [] && rest[0] < |b.txns|
    requires ResumeOne(b, s.g, ver, outside, rest, low, s'.g, s'.threads[t]) && !s'.threads[t].Panicked?
    requires SuspensionOk(b, s)
    ensures Sized(b, s'.g) && RolesOk(b, s')
  {
    var j := rest[0];
    assert HolderOk(s, t, s.threads[t]) && j in rest;
    OwnerFits(b, s, j);
    var u := s.g.owner[j].value;
    assert HolderOk(s, u, s.threads[u]);
    OwnedChanges(b, s, t, s', j);
  }

  lemma KeepRoles(b: Block, s: State, t: nat, s': State)
    requires Sized(b, s.g) && RolesOk(b, s) && Next(b, s, t, s') && !s'.threads[t].Panicked?
    requires SuspensionOk(b, s) && WakeOk(s, s.threads[t])
    ensures Sized(b, s'.g) && RolesOk(b, s')
  {
    var pc := s.threads[t];
    StaysSized(b, s.g, t, pc, s'.g, s'.threads[t]);
    assert RoleOk(s.g, t, pc);
    if !ChangesStatus(pc) {
      StatusFootprint(b, s.g, t, pc, s'.g, s'.threads[t]);
      if HasRole(pc) { OwnerMoves(b, s, t, s', s.g.txnStatus[pc.ver.txn]); } else { NoRoleFrame(b, s, t, s'); }
    } else {
      match pc
      case Guarded(ExecuteIncarnate(idx)) =>
        if idx < |b.txns| { IncarnateRoles(b, s, t, s', idx); } else { NoRoleFrame(b, s, t, s'); }
      case Task(ver, Checking(TryAbort)) =>
        OwnerFits(b, s, ver.txn);
        if s.g.txnStatus[ver.txn] == Executed(ver.inc) { Claims(b, s, t, s'); } else { NoRoleFrame(b, s, t, s'); }
      case Task(ver, Undoing(Mark(_))) => OwnerMoves(b, s, t, s', s'.g.txnStatus[ver.txn]);
      case Task(ver, Redoing(_)) => IncarnateRoles(b, s, t, s', ver.txn);
      case Task(ver, Running(_, _)) => OwnerMoves(b, s, t, s', s'.g.txnStatus[ver.txn]);
      case Task(ver, Closing(outside, Resume(rest, low))) => ResumeRoles(b, s, t, s', ver, outside, rest, low);
    }
  }

  /******* Versions *******/

  /** Transactions only move forward. */
  lemma RankGrows(b: Block, g: Shared, t: nat, pc: Pc, g': Shared, pc': Pc, j: nat)
    requires Step(b, g, t, pc, g', pc') && Sized(b, g') && j < |b.txns|
    requires RoleOk(g, t, pc)
    ensures Rank(g'.txnStatus[j]) >= Rank(g.txnStatus[j])
  {
    if pc.Task? && pc.w.Running? { assert RunStep(b, g, t, pc.ver, pc.w.log, pc.w.e, g', pc'); }
  }

  lemma VersionStep(b: Block, g: Shared, t: nat, pc: Pc, g': Shared, pc': Pc)
    requires Step(b, g, t, pc, g', pc') && Sized(b, g') && VersionOk(g, pc)
    requires pc'.Task? ==> pc'.ver.txn < |b.txns|
    requires forall j :: 0 <= j < |b.txns| ==> Rank(g'.txnStatus[j]) >= Rank(g.txnStatus[j])
    ensures VersionOk(g', pc')
  {
  }

  lemma KeepVersions(b: Block, s: State, t: nat, s': State)
    requires Sized(b, s.g) && RolesOk(b, s) && VersionsOk(s) && Next(b, s, t, s') && Sized(b, s'.g)
    requires s'.threads[t].Task? ==> s'.threads[t].ver.txn < |b.txns|
    ensures VersionsOk(s')
  {
    assert RoleOk(s.g, t, s.threads[t]) && VersionOk(s.g, s.threads[t]);
    forall j | 0 <= j < |b.txns| ensures Rank(s'.g.txnStatus[j]) >= Rank(s.g.txnStatus[j]) {
      RankGrows(b, s.g, t, s.threads[t], s'.g, s'.threads[t], j);
    }
    forall u | 0 <= u < |s'.threads| ensures VersionOk(s'.g, s'.threads[u]) {
      if u != t {
        assert VersionOk(s.g, s.threads[u]);
      } else {
        VersionStep(b, s.g, t, s.threads[t], s'.g, s'.threads[t]);
      }
    }
  }
}
