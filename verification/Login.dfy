/**
 * The login transaction: concurrent first logins of one email domain, serialised by the lock on
 * the org row, of which the first to commit becomes the org's administrator.
 */
module Login {
  import opened Wrappers

  datatype Role = Admin | Developer

  type Domain = string
  type Email = string
  type TxId = nat

  /** How far a transaction is. After a failed statement every later one fails. */
  datatype Stage =
    | Begun
    | OrgUpserted
    | OrgLocked
    | Counted(memberCount: nat, aborted: bool)
    | MemberUpserted(role: Role)

  datatype Tx = Tx(domain: Domain, email: Email, stage: Stage)

  /** Committed members per org, the holder of each org's row lock, the open transactions. */
  datatype World = World(
    members: map<Domain, map<Email, Role>>,
    locks: map<Domain, TxId>,
    txs: map<TxId, Tx>,
    log: seq<Tx>)  // committed logins, in order

  const EMPTY := World(map[], map[], map[], [])

  datatype Step =
    | Begin(t: TxId, domain: Domain, email: Email)
    | UpsertOrg(t: TxId)     // waits while another transaction holds the row
    | LockOrg(t: TxId)
    | Count(t: TxId)
    | CountFails(t: TxId)    // its error is ignored: the count stays zero
    | UpsertMember(t: TxId)
    | Commit(t: TxId)
    | Rollback(t: TxId)      // any failure, at any point

  function MembersOf(w: World, domain: Domain): map<Email, Role> {
    if domain in w.members then w.members[domain] else map[]
  }

  predicate At(w: World, t: TxId, stage: Stage) { t in w.txs && w.txs[t].stage == stage }

  function Set(w: World, t: TxId, stage: Stage): World
    requires t in w.txs
  {
    w.(txs := w.txs[t := w.txs[t].(stage := stage)])
  }

  function Release(locks: map<Domain, TxId>, t: TxId): map<Domain, TxId> {
    map d | d in locks && locks[d] != t :: locks[d]
  }

  function DefaultRole(memberCount: nat): Role { if memberCount == 0 then Admin else Developer }

  function Next(w: World, step: Step): World {
    match step
    case Begin(t, domain, email) =>
      if t in w.txs then w else w.(txs := w.txs[t := Tx(domain, email, Begun)])
    case UpsertOrg(t) =>
      if At(w, t, Begun) && w.txs[t].domain !in w.locks
      then Set(w.(locks := w.locks[w.txs[t].domain := t]), t, OrgUpserted) else w
    case LockOrg(t) => if At(w, t, OrgUpserted) then Set(w, t, OrgLocked) else w
    case Count(t) =>
      if At(w, t, OrgLocked) then Set(w, t, Counted(|MembersOf(w, w.txs[t].domain)|, false)) else w
    case CountFails(t) => if At(w, t, OrgLocked) then Set(w, t, Counted(0, true)) else w
    case UpsertMember(t) =>
      if t in w.txs && w.txs[t].stage.Counted? && !w.txs[t].stage.aborted then
        var tx := w.txs[t];
        var known := MembersOf(w, tx.domain);
        // on conflict the stored role stays
        Set(w, t, MemberUpserted(if tx.email in known then known[tx.email] else DefaultRole(tx.stage.memberCount)))
      else w
    case Commit(t) =>
      if t in w.txs && w.txs[t].stage.MemberUpserted? then
        var tx := w.txs[t];
        World(w.members[tx.domain := MembersOf(w, tx.domain)[tx.email := tx.stage.role]],
              Release(w.locks, t), w.txs - {t}, w.log + [tx])
      else w
    case Rollback(t) => w.(locks := Release(w.locks, t), txs := w.txs - {t})
  }

  function Exec(w: World, steps: seq<Step>): World {
    if steps == [] then w else Next(Exec(w, steps[..|steps| - 1]), steps[|steps| - 1])
  }

  /** The email of the first committed login of a domain. */
  function First(log: seq<Tx>, domain: Domain): Option<Email> {
    if log == [] then None
    else match First(log[..|log| - 1], domain)
      case Some(e) => Some(e)
      case None => if log[|log| - 1].domain == domain then Some(log[|log| - 1].email) else None
  }

  // The invariant

  /** The only administrator is the first login to commit; without one there is no member. */
  ghost predicate OneAdmin(w: World, domain: Domain) {
    match First(w.log, domain)
    case None => MembersOf(w, domain) == map[]
    case Some(first) =>
      var known := MembersOf(w, domain);
      first in known && forall e :: e in known ==> (known[e] == Admin <==> e == first)
  }

  ghost predicate Holds(w: World, t: TxId, domain: Domain) { domain in w.locks && w.locks[domain] == t }

  /** A transaction past the upsert holds its org's lock, and what it read is still so. */
  ghost predicate TxOk(w: World, t: TxId) {
    t in w.txs ==>
      var tx := w.txs[t];
      var known := MembersOf(w, tx.domain);
      && (!tx.stage.Begun? ==> Holds(w, t, tx.domain))
      && (tx.stage.Counted? && !tx.stage.aborted ==> tx.stage.memberCount == |known|)
      && (tx.stage.MemberUpserted? ==>
            tx.stage.role == if tx.email in known then known[tx.email] else DefaultRole(|known|))
  }

  ghost predicate Inv(w: World) {
    && (forall d :: OneAdmin(w, d))
    && (forall t :: TxOk(w, t))
  }

  lemma FirstMore(log: seq<Tx>, tx: Tx, domain: Domain)
    ensures First(log + [tx], domain)
         == if First(log, domain).Some? then First(log, domain)
            else if tx.domain == domain then Some(tx.email) else None
  {
    assert (log + [tx])[..|log|] == log;
  }

  lemma CommitKeeps(w: World, t: TxId)
    requires Inv(w) && t in w.txs && w.txs[t].stage.MemberUpserted?
    ensures Inv(Next(w, Commit(t)))
  {
    var w', tx := Next(w, Commit(t)), w.txs[t];
    assert TxOk(w, t);
    forall d ensures OneAdmin(w', d) {
      FirstMore(w.log, tx, d);
      assert OneAdmin(w, d);
    }
    forall other ensures TxOk(w', other) {
      assert TxOk(w, other);
      if other in w'.txs && !w'.txs[other].stage.Begun? {
        assert w.txs[other].domain != tx.domain;
      }
    }
  }

  lemma NextKeeps(w: World, step: Step)
    requires Inv(w)
    ensures Inv(Next(w, step))
  {
    var w' := Next(w, step);
    if step.Commit? && w' != w {
      CommitKeeps(w, step.t);
    } else {
      assert w'.log == w.log && w'.members == w.members;
      forall d ensures OneAdmin(w', d) { assert OneAdmin(w, d); }
      forall t ensures TxOk(w', t) { assert TxOk(w, t); }
    }
  }

  lemma {:induction false} AlwaysOneAdmin(steps: seq<Step>)
    ensures Inv(Exec(EMPTY, steps))
  {
    if steps != [] {
      AlwaysOneAdmin(steps[..|steps| - 1]);
      NextKeeps(Exec(EMPTY, steps[..|steps| - 1]), steps[|steps| - 1]);
    }
  }

  // Main results

  function Admins(known: map<Email, Role>): set<Email> { set e | e in known && known[e] == Admin }

  /**
   * In every interleaving of logins, commits and rollbacks, an org with a committed member has
   * exactly one administrator: the first login of its domain to commit.
   */
  lemma ExactlyOneAdmin(steps: seq<Step>, domain: Domain)
    ensures var w := Exec(EMPTY, steps);
            MembersOf(w, domain) != map[] ==>
              First(w.log, domain).Some? && Admins(MembersOf(w, domain)) == {First(w.log, domain).value}
    ensures var w := Exec(EMPTY, steps);
            forall tx :: tx in w.log ==> tx.email in MembersOf(w, tx.domain)
  {
    AlwaysOneAdmin(steps);
    assert OneAdmin(Exec(EMPTY, steps), domain);
    forall tx | tx in Exec(EMPTY, steps).log ensures tx.email in MembersOf(Exec(EMPTY, steps), tx.domain) {
      LogIsStored(steps, tx);
    }
  }

  lemma NextStores(w: World, step: Step, tx: Tx)
    requires tx in Next(w, step).log && (tx in w.log ==> tx.email in MembersOf(w, tx.domain))
    ensures tx.email in MembersOf(Next(w, step), tx.domain)
  {
    if !step.Commit? {
      assert Next(w, step).log == w.log && Next(w, step).members == w.members;
    }
  }

  lemma {:induction false} LogIsStored(steps: seq<Step>, tx: Tx)
    requires tx in Exec(EMPTY, steps).log
    ensures tx.email in MembersOf(Exec(EMPTY, steps), tx.domain)
  {
    if steps != [] {
      var w := Exec(EMPTY, steps[..|steps| - 1]);
      if tx in w.log { LogIsStored(steps[..|steps| - 1], tx); }
      NextStores(w, steps[|steps| - 1], tx);
    }
  }

  /** No later step of any run changes the role of a committed member. */
  lemma {:induction false} RolesNeverChange(before: seq<Step>, after: seq<Step>, domain: Domain, email: Email)
    requires email in MembersOf(Exec(EMPTY, before), domain)
    ensures email in MembersOf(Exec(EMPTY, before + after), domain)
    ensures MembersOf(Exec(EMPTY, before + after), domain)[email] == MembersOf(Exec(EMPTY, before), domain)[email]
  {
    if after == [] {
      assert before + after == before;
    } else {
      var front, step := after[..|after| - 1], after[|after| - 1];
      RolesNeverChange(before, front, domain, email);
      assert (before + after)[..|before + after| - 1] == before + front;
      AlwaysOneAdmin(before + front);
      var w := Exec(EMPTY, before + front);
      if step.Commit? { assert TxOk(w, step.t); }
    }
  }

  /** Two transactions never hold the same org past its upsert. */
  lemma LoginsAreSerial(steps: seq<Step>, t: TxId, u: TxId)
    requires var w := Exec(EMPTY, steps);
             && t in w.txs && u in w.txs && w.txs[t].domain == w.txs[u].domain
             && !w.txs[t].stage.Begun? && !w.txs[u].stage.Begun?
    ensures t == u
  {
    AlwaysOneAdmin(steps);
    assert TxOk(Exec(EMPTY, steps), t) && TxOk(Exec(EMPTY, steps), u);
  }
}
