/** Who is stored: every login that commits and nobody else, and no login can be kept from committing. */
module LoginProgress {
  import opened Login

  // Who is stored

  ghost predicate Logged(log: seq<Tx>, domain: Domain, email: Email) {
    exists i :: 0 <= i < |log| && log[i].domain == domain && log[i].email == email
  }

  lemma LoggedMore(log: seq<Tx>, tx: Tx, domain: Domain, email: Email)
    ensures Logged(log + [tx], domain, email)
            <==> Logged(log, domain, email) || (tx.domain == domain && tx.email == email)
  {
    var more := log + [tx];
    if i :| 0 <= i < |log| && log[i].domain == domain && log[i].email == email { assert more[i] == log[i]; }
    if i :| 0 <= i < |more| && more[i].domain == domain && more[i].email == email {
      assert i < |log| ==> log[i] == more[i];
    }
    assert more[|log|] == tx;
  }

  /** In every run, the members of an org are exactly those who committed a login of its domain. */
  lemma {:induction false} MembersAreLogins(steps: seq<Step>, domain: Domain, email: Email)
    ensures var w := Exec(EMPTY, steps); email in MembersOf(w, domain) <==> Logged(w.log, domain, email)
  {
    if steps != [] {
      var w, step := Exec(EMPTY, steps[..|steps| - 1]), steps[|steps| - 1];
      MembersAreLogins(steps[..|steps| - 1], domain, email);
      if step.Commit? && step.t in w.txs { LoggedMore(w.log, w.txs[step.t], domain, email); }
    }
  }

  // Locks

  /** A locked org is locked by an open transaction of that domain, past its upsert. */
  ghost predicate Held(w: World) {
    forall d :: d in w.locks ==>
      w.locks[d] in w.txs && w.txs[w.locks[d]].domain == d && !w.txs[w.locks[d]].stage.Begun?
  }

  lemma StaysHeld(w: World, step: Step)
    requires Held(w)
    ensures Held(Next(w, step))
  {
  }

  lemma {:induction false} LocksAreHeld(steps: seq<Step>)
    ensures Held(Exec(EMPTY, steps))
  {
    if steps != [] {
      LocksAreHeld(steps[..|steps| - 1]);
      StaysHeld(Exec(EMPTY, steps[..|steps| - 1]), steps[|steps| - 1]);
    }
  }

  // One login

  lemma ExecMore(w: World, steps: seq<Step>, step: Step)
    ensures Exec(w, steps + [step]) == Next(Exec(w, steps), step)
  {
    assert (steps + [step])[..|steps|] == steps;
  }

  /** The role a login gets: the stored one, or that of the first or a later member. */
  function RoleIn(known: map<Email, Role>, email: Email): Role {
    if email in known then known[email] else if known == map[] then Admin else Developer
  }

  /** What is left of a transaction to be done. */
  function Remaining(t: TxId, stage: Stage): seq<Step> {
    match stage
    case Begun => [UpsertOrg(t), LockOrg(t), Count(t), UpsertMember(t), Commit(t)]
    case OrgUpserted => [LockOrg(t), Count(t), UpsertMember(t), Commit(t)]
    case OrgLocked => [Count(t), UpsertMember(t), Commit(t)]
    case Counted(_, _) => [UpsertMember(t), Commit(t)]
    case MemberUpserted(_) => [Commit(t)]
  }

  lemma ExecFirst(w: World, step: Step, rest: seq<Step>)
    ensures Exec(w, [step] + rest) == Exec(Next(w, step), rest)
    decreases |rest|
  {
    var all := [step] + rest;
    if rest == [] {
      assert all == [step] && all[..0] == [];
    } else {
      var front := rest[..|rest| - 1];
      ExecFirst(w, step, front);
      assert all[..|all| - 1] == [step] + front && all[|all| - 1] == rest[|rest| - 1];
    }
  }

  /** The login of `t` is stored, and nothing else about members, transactions or other locks has changed. */
  ghost predicate Stores(w: World, w': World, t: TxId)
    requires t in w.txs
  {
    var tx := w.txs[t];
    var role := RoleIn(MembersOf(w, tx.domain), tx.email);
    && w'.members == w.members[tx.domain := MembersOf(w, tx.domain)[tx.email := role]]
    && w'.log == w.log + [Tx(tx.domain, tx.email, MemberUpserted(role))]
    && w'.txs == w.txs - {t} && w'.locks == Release(w.locks, t)
  }

  /** Nobody else holds the lock this transaction needs, and its count has not failed. */
  predicate Free(w: World, t: TxId) {
    && t in w.txs && !(w.txs[t].stage.Counted? && w.txs[t].stage.aborted)
    && (w.txs[t].stage.Begun? ==> w.txs[t].domain !in w.locks)
  }

  /** Only the stage of `t` and its lock have changed. */
  ghost predicate Proceeds(w: World, v: World, t: TxId)
    requires t in w.txs
  {
    && t in v.txs && v.txs == w.txs[t := w.txs[t].(stage := v.txs[t].stage)]
    && v.members == w.members && v.log == w.log && Release(v.locks, t) == Release(w.locks, t)
  }

  lemma StoresBefore(w: World, v: World, w': World, t: TxId)
    requires t in w.txs && Proceeds(w, v, t) && Stores(v, w', t)
    ensures Stores(w, w', t)
  {
    assert v.txs - {t} == w.txs - {t};
  }

  lemma UpsertProceeds(w: World, t: TxId)
    requires Free(w, t) && w.txs[t].stage.Begun?
    ensures var v := Next(w, UpsertOrg(t)); Proceeds(w, v, t) && v.txs[t].stage == OrgUpserted
  {
  }

  lemma StepProceeds(w: World, t: TxId)
    requires Free(w, t) && !w.txs[t].stage.MemberUpserted?
    ensures var steps := Remaining(t, w.txs[t].stage);
            var v := Next(w, steps[0]);
            Proceeds(w, v, t) && Free(v, t) && Remaining(t, v.txs[t].stage) == steps[1..]
  {
    if w.txs[t].stage.Begun? { UpsertProceeds(w, t); }
  }

  lemma CommitStores(w: World, t: TxId)
    requires Inv(w) && t in w.txs && w.txs[t].stage.MemberUpserted?
    ensures Stores(w, Next(w, Commit(t)), t)
  {
    assert TxOk(w, t);
  }

  /** Left to itself, a transaction whose count has not failed ends with its login stored. */
  lemma {:induction false} Commits(w: World, t: TxId)
    requires Inv(w) && Free(w, t)
    ensures Stores(w, Exec(w, Remaining(t, w.txs[t].stage)), t)
    decreases |Remaining(t, w.txs[t].stage)|
  {
    var steps := Remaining(t, w.txs[t].stage);
    assert steps == [steps[0]] + steps[1..];
    ExecFirst(w, steps[0], steps[1..]);
    if w.txs[t].stage.MemberUpserted? {
      CommitStores(w, t);
    } else {
      StepProceeds(w, t);
      NextKeeps(w, steps[0]);
      Commits(Next(w, steps[0]), t);
      StoresBefore(w, Next(w, steps[0]), Exec(w, steps), t);
    }
  }

  /** A login from its beginning, while nobody holds its org. */
  lemma LoginIsStored(steps: seq<Step>, t: TxId, domain: Domain, email: Email)
    requires var w := Exec(EMPTY, steps); t !in w.txs && domain !in w.locks
    ensures var w := Exec(EMPTY, steps);
            var role := RoleIn(MembersOf(w, domain), email);
            Exec(w, [Begin(t, domain, email), UpsertOrg(t), LockOrg(t), Count(t), UpsertMember(t), Commit(t)])
            == World(w.members[domain := MembersOf(w, domain)[email := role]], w.locks, w.txs,
                     w.log + [Tx(domain, email, MemberUpserted(role))])
  {
    var w, rest := Exec(EMPTY, steps), Remaining(t, Begun);
    var v := Next(w, Begin(t, domain, email));
    ExecFirst(w, Begin(t, domain, email), rest);
    assert [Begin(t, domain, email)] + rest
        == [Begin(t, domain, email), UpsertOrg(t), LockOrg(t), Count(t), UpsertMember(t), Commit(t)];
    AlwaysOneAdmin(steps);
    NextKeeps(w, Begin(t, domain, email));
    Commits(v, t);
    LocksAreHeld(steps);
    assert Release(w.locks, t) == w.locks;
    assert v.txs - {t} == w.txs;
  }

  /**
   * In every reachable state every open transaction whose count has not failed can still commit:
   * at most one other has to go first, the one that holds its org.
   */
  lemma NobodyIsStuck(steps: seq<Step>, t: TxId) returns (more: seq<Step>)
    requires var w := Exec(EMPTY, steps); t in w.txs && !(w.txs[t].stage.Counted? && w.txs[t].stage.aborted)
    ensures var w := Exec(EMPTY, steps);
            var w', tx := Exec(w, more), w.txs[t];
            && |w'.log| == |w.log| + 1 && w'.log[..|w.log|] == w.log
            && w'.log[|w.log|].domain == tx.domain && w'.log[|w.log|].email == tx.email
            && tx.email in MembersOf(w', tx.domain)
  {
    var w := Exec(EMPTY, steps);
    var domain := w.txs[t].domain;
    AlwaysOneAdmin(steps);
    LocksAreHeld(steps);
    if w.txs[t].stage.Begun? && domain in w.locks {
      var holder := w.locks[domain];
      var v := Next(w, Rollback(holder));
      NextKeeps(w, Rollback(holder));
      assert domain !in v.locks && t in v.txs;
      Commits(v, t);
      more := [Rollback(holder)] + Remaining(t, v.txs[t].stage);
      ExecFirst(w, Rollback(holder), Remaining(t, v.txs[t].stage));
    } else {
      Commits(w, t);
      more := Remaining(t, w.txs[t].stage);
    }
  }

  /** A transaction whose count has failed is stored by nothing that follows: it can only be rolled back. */
  lemma {:induction false} FailedCountIsHarmless(w: World, steps: seq<Step>, t: TxId)
    requires At(w, t, OrgLocked) && Rollback(t) !in steps
    ensures var w' := Exec(Next(w, CountFails(t)), steps);
            t in w'.txs && w'.txs[t] == w.txs[t].(stage := Counted(0, true))
  {
    if steps != [] {
      FailedCountIsHarmless(w, steps[..|steps| - 1], t);
    }
  }
}
