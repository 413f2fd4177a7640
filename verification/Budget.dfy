/**
 * The budget policy: a pass prices each deployment's tokens of the day and pauses those at the cap.
 * Money is counted in units of 1e-7 USD.
 */
module Budget {
  import opened Wrappers

  const INPUT_PRICE: nat := 4    // $0.0000004
  const OUTPUT_PRICE: nat := 12  // $0.0000012

  /** One row of the day's metering query, which groups by deployment. */
  datatype TokenRow = TokenRow(deployment: string, input: nat, output: nat)

  datatype SpendResult = SpendResult(deployment: string, input: nat, output: nat, spend: nat)

  function Cost(input: nat, output: nat): nat { input * INPUT_PRICE + output * OUTPUT_PRICE }

  /** The row loop; an iterator error part way discards everything. */
  method QueryTodaySpend(rows: seq<TokenRow>, errorAt: Option<nat>) returns (results: Option<seq<SpendResult>>)
    ensures results.None? <==> errorAt.Some? && errorAt.value <= |rows|
    ensures results.Some? ==> results.value == Priced(rows)
  {
    var priced: seq<SpendResult> := [];
    for i := 0 to |rows|
      invariant priced == Priced(rows[..i])
      invariant errorAt.Some? ==> errorAt.value >= i
    {
      if errorAt == Some(i) {
        return None;
      }
      assert rows[..i + 1][..i] == rows[..i];
      var row := rows[i];
      priced := priced + [SpendResult(row.deployment, row.input, row.output, Cost(row.input, row.output))];
    }
    assert rows[..|rows|] == rows;
    return if errorAt == Some(|rows|) then None else Some(priced);
  }

  function Priced(rows: seq<TokenRow>): seq<SpendResult> {
    if rows == [] then []
    else
      var r := rows[|rows| - 1];
      Priced(rows[..|rows| - 1]) + [SpendResult(r.deployment, r.input, r.output, Cost(r.input, r.output))]
  }

  datatype Phase = Pending | Pulling | Verifying | Running | ScaledToZero | BudgetPaused | Failed

  datatype Deployment = Deployment(phase: Phase, budgetPausedAt: Option<int>)

  /** `percent` is the alert threshold. */
  datatype Policy = Policy(cap: int, percent: int, pauseOnExceed: bool)

  datatype Report = Report(total: int, paused: seq<string>, affected: seq<string>, alert: bool)

  // What a pass means

  /** The spend found for a deployment: that of its row, zero without one. */
  function SpendOf(rows: seq<TokenRow>, name: string): nat {
    if rows == [] then 0
    else if rows[|rows| - 1].deployment == name then Cost(rows[|rows| - 1].input, rows[|rows| - 1].output)
    else SpendOf(rows[..|rows| - 1], name)
  }

  function Total(rows: seq<TokenRow>, names: seq<string>): nat {
    if names == [] then 0 else Total(rows, names[..|names| - 1]) + SpendOf(rows, names[|names| - 1])
  }

  predicate Over(policy: Policy, rows: seq<TokenRow>, name: string) {
    policy.pauseOnExceed && SpendOf(rows, name) >= policy.cap
  }

  /** A status write is accepted by the API server, and the deployment is still there. */
  predicate Written(deployments: map<string, Deployment>, writes: string -> bool, name: string) {
    name in deployments && writes(name)
  }

  /** Those of `names`, in order, that are over the cap and whose status write succeeds. */
  function PausedOf(policy: Policy, rows: seq<TokenRow>, deployments: map<string, Deployment>, names: seq<string>,
                    writes: string -> bool): (r: seq<string>)
    ensures forall n :: n in r <==> n in names && Over(policy, rows, n) && Written(deployments, writes, n)
  {
    if names == [] then []
    else
      var n, rest := names[|names| - 1], PausedOf(policy, rows, deployments, names[..|names| - 1], writes);
      assert names == names[..|names| - 1] + [n];
      if Over(policy, rows, n) && Written(deployments, writes, n) then rest + [n] else rest
  }

  function AfterPass(policy: Policy, rows: seq<TokenRow>, deployments: map<string, Deployment>, names: seq<string>,
                     writes: string -> bool, now: int): map<string, Deployment>
  {
    map n | n in deployments ::
      if n in names && Over(policy, rows, n) && writes(n) then Deployment(BudgetPaused, Some(now)) else deployments[n]
  }

  function ReportOf(policy: Policy, rows: seq<TokenRow>, deployments: map<string, Deployment>, names: seq<string>,
                    writes: string -> bool): Report
  {
    Report(Total(rows, names), PausedOf(policy, rows, deployments, names, writes), names,
           Total(rows, names) * 100 >= policy.cap * policy.percent)
  }

  // The reconciler

  class Cluster {
    var deployments: map<string, Deployment>
    var report: Report

    /** `writes` says whose status update the API server accepts; that of a deleted deployment fails. */
    method PauseDeployment(name: string, now: int, writes: string -> bool) returns (ok: bool)
      modifies `deployments
      ensures ok <==> Written(old(deployments), writes, name)
      ensures deployments
           == if ok then old(deployments)[name := Deployment(BudgetPaused, Some(now))] else old(deployments)
    {
      ok := name in deployments && writes(name);
      if ok {
        deployments := deployments[name := Deployment(BudgetPaused, Some(now))];
      }
    }

    /** Clears the pause; refused if the deployment is gone or the patch fails. */
    method ResumeModelDeployment(name: string, patchOk: bool) returns (ok: bool)
      modifies `deployments
      ensures ok <==> name in old(deployments) && patchOk
      ensures deployments == if ok then old(deployments)[name := Deployment(Pending, None)] else old(deployments)
    {
      if name !in deployments || !patchOk {
        return false;
      }
      deployments := deployments[name := Deployment(Pending, None)];
      return true;
    }

    /**
     * One pass over the deployments the API server listed, `names`, some of which may be gone by now.
     * A failed query changes nothing; otherwise exactly the listed deployments at the cap whose write
     * succeeds are paused.
     */
    method Reconcile(policy: Policy, rows: seq<TokenRow>, errorAt: Option<nat>, names: seq<string>,
                     writes: string -> bool, reportOk: bool, now: int)
      returns (queried: bool)
      modifies this
      ensures queried <==> !(errorAt.Some? && errorAt.value <= |rows|)
      ensures !queried ==> deployments == old(deployments) && report == old(report)
      ensures queried ==> deployments == AfterPass(policy, rows, old(deployments), names, writes, now)
      ensures queried ==>
                report == if reportOk then ReportOf(policy, rows, old(deployments), names, writes) else old(report)
    {
      var results := QueryTodaySpend(rows, errorAt);
      if results.None? {
        return false;
      }
      var spendByDeployment := SpendMap(rows, results.value);
      var totalSpend, paused, affected := 0, [], [];
      for i := 0 to |names|
        invariant totalSpend == Total(rows, names[..i]) && affected == names[..i]
        invariant paused == PausedOf(policy, rows, old(deployments), names[..i], writes)
        invariant deployments == AfterPass(policy, rows, old(deployments), names[..i], writes, now)
        invariant report == old(report)
      {
        var name := names[i];
        assert names[..i + 1][..i] == names[..i];
        var spend := if name in spendByDeployment then spendByDeployment[name] else 0;
        totalSpend := totalSpend + spend;
        affected := affected + [name];
        PassStep(policy, rows, old(deployments), names, i, writes, now);
        if spend >= policy.cap && policy.pauseOnExceed {
          var ok := PauseDeployment(name, now, writes);
          if ok {
            paused := paused + [name];
          }
        }
      }
      assert names[..|names|] == names;
      if reportOk {
        report := Report(totalSpend, paused, affected, totalSpend * 100 >= policy.cap * policy.percent);
      }
      queried := true;
    }
  }

  method SpendMap(rows: seq<TokenRow>, results: seq<SpendResult>) returns (spend: map<string, nat>)
    requires results == Priced(rows)
    ensures forall n :: SpendOf(rows, n) == if n in spend then spend[n] else 0
  {
    spend := map[];
    PricedAt(rows);
    for i := 0 to |results|
      invariant forall n :: SpendOf(rows[..i], n) == if n in spend then spend[n] else 0
    {
      assert rows[..i + 1][..i] == rows[..i];
      spend := spend[results[i].deployment := results[i].spend];
    }
    assert rows[..|rows|] == rows;
  }

  lemma {:induction false} PricedAt(rows: seq<TokenRow>)
    ensures |Priced(rows)| == |rows|
    ensures forall i :: 0 <= i < |rows| ==>
              && Priced(rows)[i].deployment == rows[i].deployment
              && Priced(rows)[i].input == rows[i].input && Priced(rows)[i].output == rows[i].output
              && Priced(rows)[i].spend == 4 * rows[i].input + 12 * rows[i].output
  {
    if rows != [] { PricedAt(rows[..|rows| - 1]); }
  }

  lemma PassStep(policy: Policy, rows: seq<TokenRow>, before: map<string, Deployment>, names: seq<string>, i: nat,
                 writes: string -> bool, now: int)
    requires i < |names|
    ensures var before_i := AfterPass(policy, rows, before, names[..i], writes, now);
            AfterPass(policy, rows, before, names[..i + 1], writes, now)
            == if Over(policy, rows, names[i]) && Written(before, writes, names[i])
               then before_i[names[i] := Deployment(BudgetPaused, Some(now))] else before_i
  {
    assert names[..i + 1] == names[..i] + [names[i]];
  }

  // A day of passes

  /** The day so far: tokens metered per deployment, and the deployments. */
  datatype Day = Day(usage: map<string, (nat, nat)>, deployments: map<string, Deployment>)

  datatype Step =
    | Use(name: string, input: nat, output: nat)
    | Pass(rows: seq<TokenRow>, names: seq<string>, writes: string -> bool, now: int)
    | Resume(name: string)
    | SetDeployment(name: string, deployment: Deployment)   // creation, or a status write by anyone else
    | Remove(name: string)

  function UsageOf(d: Day, name: string): (nat, nat) { if name in d.usage then d.usage[name] else (0, 0) }

  function CostOf(d: Day, name: string): nat { Cost(UsageOf(d, name).0, UsageOf(d, name).1) }

  /** The query's rows are the day's usage grouped by deployment. */
  ghost predicate Groups(rows: seq<TokenRow>, d: Day) {
    && (forall i, j :: 0 <= i < j < |rows| ==> rows[i].deployment != rows[j].deployment)
    && (forall i :: 0 <= i < |rows| ==>
          rows[i].deployment in d.usage && d.usage[rows[i].deployment] == (rows[i].input, rows[i].output))
    && (forall n :: n in d.usage ==> exists i :: 0 <= i < |rows| && rows[i].deployment == n)
  }

  ghost function Next(policy: Policy, d: Day, step: Step): Day {
    match step
    case Use(name, input, output) =>
      d.(usage := d.usage[name := (UsageOf(d, name).0 + input, UsageOf(d, name).1 + output)])
    case Pass(rows, names, writes, now) =>
      if Groups(rows, d) then d.(deployments := AfterPass(policy, rows, d.deployments, names, writes, now)) else d
    case Resume(name) =>
      if name in d.deployments then d.(deployments := d.deployments[name := Deployment(Pending, None)]) else d
    case SetDeployment(name, deployment) => d.(deployments := d.deployments[name := deployment])
    case Remove(name) => d.(deployments := d.deployments - {name})
  }

  ghost function Exec(policy: Policy, d: Day, steps: seq<Step>): Day {
    if steps == [] then d else Next(policy, Exec(policy, d, steps[..|steps| - 1]), steps[|steps| - 1])
  }

  lemma {:induction false} SpendIsCost(rows: seq<TokenRow>, d: Day, name: string)
    requires Groups(rows, d)
    ensures SpendOf(rows, name) == CostOf(d, name)
  {
    if name in d.usage {
      var i :| 0 <= i < |rows| && rows[i].deployment == name;
      SpendAt(rows, i);
    } else {
      SpendAbsent(rows, name);
    }
  }

  lemma {:induction false} SpendAt(rows: seq<TokenRow>, i: nat)
    requires i < |rows| && forall j :: i < j < |rows| ==> rows[j].deployment != rows[i].deployment
    ensures SpendOf(rows, rows[i].deployment) == Cost(rows[i].input, rows[i].output)
  {
    if i < |rows| - 1 { SpendAt(rows[..|rows| - 1], i); }
  }

  lemma {:induction false} SpendAbsent(rows: seq<TokenRow>, name: string)
    requires forall i :: 0 <= i < |rows| ==> rows[i].deployment != name
    ensures SpendOf(rows, name) == 0
  {
    if rows != [] { SpendAbsent(rows[..|rows| - 1], name); }
  }

  lemma {:induction false} CostGrows(policy: Policy, d: Day, steps: seq<Step>, name: string)
    ensures CostOf(d, name) <= CostOf(Exec(policy, d, steps), name)
  {
    if steps != [] { CostGrows(policy, d, steps[..|steps| - 1], name); }
  }

  /** The day's usage of a deployment at 0.0000004 USD for an input token and 0.0000012 for an output token. */
  function DayCost(d: Day, name: string): nat {
    if name in d.usage then 4 * d.usage[name].0 + 12 * d.usage[name].1 else 0
  }

  lemma CostIsDayCost(d: Day, name: string)
    ensures CostOf(d, name) == DayCost(d, name)
  {
  }

  /**
   * A pass judges a deployment by the whole day's usage: paused now if it was listed, is at the cap and
   * its write succeeds, left alone otherwise; it creates and removes none.
   */
  lemma PassIsExact(policy: Policy, d: Day, pass: Step, name: string)
    requires pass.Pass? && Groups(pass.rows, d)
    ensures var d' := Next(policy, d, pass);
            && d'.usage == d.usage && (name in d'.deployments <==> name in d.deployments)
            && (name in d.deployments ==>
                  d'.deployments[name]
                  == if && name in pass.names && pass.writes(name)
                        && policy.pauseOnExceed && DayCost(d, name) >= policy.cap
                     then Deployment(BudgetPaused, Some(pass.now)) else d.deployments[name])
  {
    SpendIsCost(pass.rows, d, name);
  }

  /** The day's cost of the listed deployments together. */
  function DayTotal(d: Day, names: seq<string>): nat {
    if names == [] then 0 else DayCost(d, names[0]) + DayTotal(d, names[1..])
  }

  lemma {:induction false} TotalAppend(rows: seq<TokenRow>, a: seq<string>, b: seq<string>)
    ensures Total(rows, a + b) == Total(rows, a) + Total(rows, b)
  {
    if b == [] {
      assert a + b == a;
    } else {
      TotalAppend(rows, a, b[..|b| - 1]);
      assert (a + b)[..|a + b| - 1] == a + b[..|b| - 1];
    }
  }

  lemma {:induction false} TotalIsDayTotal(rows: seq<TokenRow>, d: Day, names: seq<string>)
    requires Groups(rows, d)
    ensures Total(rows, names) == DayTotal(d, names)
  {
    if names != [] {
      TotalIsDayTotal(rows, d, names[1..]);
      TotalAppend(rows, [names[0]], names[1..]);
      assert [names[0]] + names[1..] == names && Total(rows, [names[0]][..0]) == 0;
      SpendIsCost(rows, d, names[0]);
    }
  }

  predicate Pauses(policy: Policy, d: Day, name: string, writes: string -> bool) {
    policy.pauseOnExceed && DayCost(d, name) >= policy.cap && name in d.deployments && writes(name)
  }

  /** Those of the listed deployments that the pass pauses, in the order of the list. */
  function PausedBy(policy: Policy, d: Day, names: seq<string>, writes: string -> bool): seq<string> {
    if names == [] then []
    else (if Pauses(policy, d, names[0], writes) then [names[0]] else []) + PausedBy(policy, d, names[1..], writes)
  }

  lemma PausedOne(policy: Policy, rows: seq<TokenRow>, d: Day, name: string, writes: string -> bool)
    requires Groups(rows, d)
    ensures PausedOf(policy, rows, d.deployments, [name], writes)
         == if Pauses(policy, d, name, writes) then [name] else []
  {
    assert PausedOf(policy, rows, d.deployments, [name][..0], writes) == [];
    SpendIsCost(rows, d, name);
  }

  lemma {:induction false} PausedAppend(policy: Policy, rows: seq<TokenRow>, deployments: map<string, Deployment>,
                                        a: seq<string>, b: seq<string>, writes: string -> bool)
    ensures PausedOf(policy, rows, deployments, a + b, writes)
         == PausedOf(policy, rows, deployments, a, writes) + PausedOf(policy, rows, deployments, b, writes)
  {
    if b == [] {
      assert a + b == a;
    } else {
      PausedAppend(policy, rows, deployments, a, b[..|b| - 1], writes);
      assert (a + b)[..|a + b| - 1] == a + b[..|b| - 1];
    }
  }

  lemma {:induction false} PausedIsPausedBy(policy: Policy, rows: seq<TokenRow>, d: Day, names: seq<string>,
                                            writes: string -> bool)
    requires Groups(rows, d)
    ensures PausedOf(policy, rows, d.deployments, names, writes) == PausedBy(policy, d, names, writes)
  {
    if names != [] {
      PausedIsPausedBy(policy, rows, d, names[1..], writes);
      PausedAppend(policy, rows, d.deployments, [names[0]], names[1..], writes);
      assert [names[0]] + names[1..] == names;
      PausedOne(policy, rows, d, names[0], writes);
    }
  }

  /** The report adds up the day's cost, names what was paused, and raises the alert at the threshold. */
  lemma ReportIsExact(policy: Policy, rows: seq<TokenRow>, d: Day, names: seq<string>, writes: string -> bool)
    requires Groups(rows, d)
    ensures var r := ReportOf(policy, rows, d.deployments, names, writes);
            && r.total == DayTotal(d, names) && r.affected == names
            && r.paused == PausedBy(policy, d, names, writes)
            && (r.alert <==> 100 * r.total >= policy.percent * policy.cap)
  {
    TotalIsDayTotal(rows, d, names);
    PausedIsPausedBy(policy, rows, d, names, writes);
  }

  /**
   * Once a deployment is at the cap, it is paused after every later pass of the day that lists it
   * and whose write succeeds, whatever was resumed, changed or recreated in between.
   */
  lemma PausedAfterEveryPass(policy: Policy, d: Day, steps: seq<Step>, pass: Step, name: string)
    requires policy.pauseOnExceed && DayCost(d, name) >= policy.cap
    requires var today := Exec(policy, d, steps);
             && pass.Pass? && Groups(pass.rows, today)
             && name in today.deployments && name in pass.names && pass.writes(name)
    ensures var after := Exec(policy, d, steps + [pass]);
            name in after.deployments && after.deployments[name] == Deployment(BudgetPaused, Some(pass.now))
  {
    CostGrows(policy, d, steps, name);
    assert (steps + [pass])[..|steps|] == steps;
    PassIsExact(policy, Exec(policy, d, steps), pass, name);
  }
}
