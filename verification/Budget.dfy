/** The agent's monthly message budget (services/api/src/agent/agent-budget.service.ts): checked before a
    model call and recorded after it, by turns that run concurrently and across month ends. */
module Budget {
  import Decimal
  import Texts

  type Tenant = nat

  /** Months counted from year 0: 12 * year + month. */
  type Month = nat

  datatype Usage = Usage(messages: nat, inputTokens: nat, outputTokens: nat)
  datatype UsageKey = UsageKey(tenant: Tenant, month: Month)
  type UsageTable = map<UsageKey, Usage>

  datatype Status = Status(allowed: bool, used: nat, limit: nat, warning: bool)

  // ---- The service ----

  function Used(table: UsageTable, key: UsageKey): nat { if key in table then table[key].messages else 0 }

  /** No TenantLimits row means a limit of zero. */
  function LimitOf(limits: map<Tenant, nat>, tenant: Tenant): nat { if tenant in limits then limits[tenant] else 0 }

  function Incremented(table: UsageTable, key: UsageKey, input: nat, output: nat): UsageTable {
    table[key := if key in table
                 then Usage(table[key].messages + 1, table[key].inputTokens + input, table[key].outputTokens + output)
                 else Usage(1, input, output)]
  }

  class AgentBudget {
    var limits: map<Tenant, nat>
    var usage: UsageTable

    constructor (limits: map<Tenant, nat>)
      ensures this.limits == limits && usage == map[]
    {
      this.limits, usage := limits, map[];
    }

    method Check(tenant: Tenant, month: Month) returns (status: Status)
      ensures status.allowed <==> Used(usage, UsageKey(tenant, month)) < LimitOf(limits, tenant)
      ensures status.used == Used(usage, UsageKey(tenant, month)) && status.limit == LimitOf(limits, tenant)
      ensures !status.allowed && status.limit > 0 ==> status.warning
      ensures status.warning <==> status.limit > 0 && 10 * (status.used + 1) > 9 * status.limit
      ensures status.limit == 0 ==> !status.allowed && !status.warning
    {
      var limit := if tenant in limits then limits[tenant] else 0;
      var key := UsageKey(tenant, month);
      var used := if key in usage then usage[key].messages else 0;
      status := Status(used < limit, used, limit, limit > 0 && used >= limit * 9 / 10);
    }

    /** The upsert on (tenant, month): one more message and the turn's tokens, nothing else moves. */
    method Record(tenant: Tenant, month: Month, input: nat, output: nat)
      modifies this`usage
      ensures usage == Incremented(old(usage), UsageKey(tenant, month), input, output)
      ensures Used(usage, UsageKey(tenant, month)) == Used(old(usage), UsageKey(tenant, month)) + 1
      ensures forall k :: k != UsageKey(tenant, month) ==> Used(usage, k) == Used(old(usage), k)
    {
      var key := UsageKey(tenant, month);
      if key in usage {
        var row := usage[key];
        usage := usage[key := Usage(row.messages + 1, row.inputTokens + input, row.outputTokens + output)];
      } else {
        usage := usage[key := Usage(1, input, output)];
      }
    }
  }

  /** `padStart(2, '0')` on a month number. */
  function Padded(n: nat): string { (if n < 10 then "0" else "") + Decimal.Print(n) }

  /** `currentYearMonth`: the text each month's row is keyed by. */
  function YearMonth(m: Month): string { Decimal.Print(m / 12) + "-" + Padded(m % 12 + 1) }

  /** Two months share a usage row only if they are the same month. */
  lemma MonthTextsDiffer(a: Month, b: Month)
    ensures YearMonth(a) == YearMonth(b) <==> a == b
  {
    if YearMonth(a) == YearMonth(b) {
      hide Padded;
      var ya, yb := Decimal.Print(a / 12), Decimal.Print(b / 12);
      assert forall i :: 0 <= i < |ya| ==> Decimal.IsDigit(ya[i]);
      assert forall i :: 0 <= i < |yb| ==> Decimal.IsDigit(yb[i]);
      Texts.FirstSeparator(ya, Padded(a % 12 + 1), yb, Padded(b % 12 + 1), '-');
      Decimal.PrintInjective(a / 12, b / 12);
      ParsePadded(a % 12 + 1);
      ParsePadded(b % 12 + 1);
    }
  }

  lemma ParsePadded(n: nat)
    requires 1 <= n <= 12
    ensures Decimal.Parse(Padded(n)) == n
  {
    if n < 10 {
      var s := Padded(n);
      assert s == ['0', Decimal.DigitChar(n)];
      assert s[..1] == ['0'] && ['0'][..0] == [];
      assert Decimal.Parse(['0']) == 0;
    } else {
      assert Padded(n) == Decimal.Print(n);
      Decimal.ParsePrint(n);
    }
  }

  // ---- Concurrent turns ----

  /** A turn has read the clock for its check; was admitted and is with the model; or has read the clock
      for its record. */
  datatype Phase = Checking(month: Month) | Admitted | Recording(month: Month)
  datatype Turn = Turn(tenant: Tenant, phase: Phase)

  datatype State = State(now: Month, usage: UsageTable, turns: map<nat, Turn>)

  datatype Step =
    | Start(turn: nat, tenant: Tenant)
    | Read(turn: nat)
    | Finish(turn: nat)
    | Write(turn: nat)
    | Drop(turn: nat)
    | MonthPasses

  function Advance(s: State, limits: map<Tenant, nat>, step: Step): State {
    match step
    case Start(n, tenant) => if n in s.turns then s else s.(turns := s.turns[n := Turn(tenant, Checking(s.now))])
    case Read(n) =>
      if n in s.turns && s.turns[n].phase.Checking? then
        var turn := s.turns[n];
        if Used(s.usage, UsageKey(turn.tenant, turn.phase.month)) < LimitOf(limits, turn.tenant)
        then s.(turns := s.turns[n := turn.(phase := Admitted)])
        else s.(turns := s.turns - {n})
      else s
    case Finish(n) =>
      if n in s.turns && s.turns[n].phase.Admitted? then
        s.(turns := s.turns[n := s.turns[n].(phase := Recording(s.now))])
      else s
    case Write(n) =>
      if n in s.turns && s.turns[n].phase.Recording? then
        s.(turns := s.turns - {n},
           usage := Incremented(s.usage, UsageKey(s.turns[n].tenant, s.turns[n].phase.month), 0, 0))
      else s
    case Drop(n) => s.(turns := s.turns - {n})
    case MonthPasses => s.(now := s.now + 1)
  }

  /** A turn that nothing interrupts is a check and, if it is admitted, a record in the month it ends in; one
      that is dropped after its check records nothing. */
  lemma TurnIsCheckThenRecord(s: State, limits: map<Tenant, nat>, n: nat, tenant: Tenant)
    requires n !in s.turns
    ensures var checked := Advance(Advance(s, limits, Start(n, tenant)), limits, Read(n));
      var over := Advance(Advance(checked, limits, Finish(n)), limits, Write(n));
      && over == (if Used(s.usage, UsageKey(tenant, s.now)) < LimitOf(limits, tenant)
                  then s.(usage := Incremented(s.usage, UsageKey(tenant, s.now), 0, 0)) else s)
      && Advance(checked, limits, Drop(n)) == s
  {
    hide Used, Incremented, LimitOf;
    var checking, admitted := Turn(tenant, Checking(s.now)), Turn(tenant, Admitted);
    var recording := Turn(tenant, Recording(s.now));
    assert s.turns[n := checking] - {n} == s.turns;
    assert s.turns[n := checking][n := admitted] - {n} == s.turns;
    assert s.turns[n := checking][n := admitted][n := recording] - {n} == s.turns;
  }

  /** A turn admitted in one month and finished in the next is counted in the later one. */
  lemma TurnAcrossMonths(s: State, limits: map<Tenant, nat>, n: nat, tenant: Tenant)
    requires n !in s.turns && Used(s.usage, UsageKey(tenant, s.now)) < LimitOf(limits, tenant)
    ensures var checked := Advance(Advance(s, limits, Start(n, tenant)), limits, Read(n));
      var finished := Advance(Advance(checked, limits, MonthPasses), limits, Finish(n));
      Advance(finished, limits, Write(n))
        == s.(now := s.now + 1, usage := Incremented(s.usage, UsageKey(tenant, s.now + 1), 0, 0))
  {
    hide Used, Incremented, LimitOf;
    var checking, admitted := Turn(tenant, Checking(s.now)), Turn(tenant, Admitted);
    var recording := Turn(tenant, Recording(s.now + 1));
    assert s.turns[n := checking][n := admitted][n := recording] - {n} == s.turns;
  }

  function Run(s: State, limits: map<Tenant, nat>, steps: seq<Step>): State
    decreases |steps|
  {
    if steps == [] then s else Run(Advance(s, limits, steps[0]), limits, steps[1..])
  }

  function TurnsOf(s: State, tenant: Tenant): set<nat> { set n | n in s.turns && s.turns[n].tenant == tenant }

  /** At most `c` turns of the tenant are in flight at any point of the run. */
  predicate Bounded(s: State, limits: map<Tenant, nat>, steps: seq<Step>, tenant: Tenant, c: nat)
    decreases |steps|
  {
    |TurnsOf(s, tenant)| <= c && (steps == [] || Bounded(Advance(s, limits, steps[0]), limits, steps[1..], tenant, c))
  }

  /** The turn may still add a message to the month's row whatever its check will read. */
  predicate MayRecord(t: Turn, tenant: Tenant, month: Month, now: Month) {
    t.tenant == tenant &&
    match t.phase
    case Checking(m) => month == now && m != now
    case Admitted => month == now
    case Recording(m) => m == month
  }

  function Pending(s: State, tenant: Tenant, month: Month): set<nat> {
    set n | n in s.turns && MayRecord(s.turns[n], tenant, month, s.now)
  }

  ghost predicate Inv(s: State, tenant: Tenant, limit: nat, c: nat) {
    && (forall m: Month :: Used(s.usage, UsageKey(tenant, m)) + |Pending(s, tenant, m)| <= limit - 1 + c)
    && (forall m: Month :: m > s.now ==> Used(s.usage, UsageKey(tenant, m)) == 0)
    && (forall n :: n in s.turns && s.turns[n].phase.Recording? ==> s.turns[n].phase.month <= s.now)
    && (forall n :: n in s.turns && s.turns[n].phase.Checking? ==> s.turns[n].phase.month <= s.now)
  }

  lemma SubsetSize(a: set<nat>, b: set<nat>)
    requires a <= b
    ensures |a| <= |b|
  {
    if b - a != {} {
      var x :| x in b - a;
      assert b == (b - {x}) + {x};
      SubsetSize(a, b - {x});
    } else {
      assert forall x :: x in b ==> x !in b - a;
      assert a == b;
    }
  }

  /** Reading the usage admits a turn only below the limit. */
  lemma ReadEffect(s: State, limits: map<Tenant, nat>, n: nat, tenant: Tenant, limit: nat, c: nat, m: Month)
    requires Inv(s, tenant, limit, c) && limit == LimitOf(limits, tenant) && limit >= 1
    requires |TurnsOf(Advance(s, limits, Read(n)), tenant)| <= c
    ensures var t := Advance(s, limits, Read(n));
      Used(t.usage, UsageKey(tenant, m)) + |Pending(t, tenant, m)| <= limit - 1 + c
  {
    var t := Advance(s, limits, Read(n));
    if n in s.turns && s.turns[n].phase.Checking? && n in t.turns && m == s.now && s.turns[n].phase.month == m
       && s.turns[n].tenant == tenant {
      SubsetSize(Pending(t, tenant, m), TurnsOf(t, tenant));
      assert Used(s.usage, UsageKey(tenant, m)) <= limit - 1;
    } else {
      SubsetSize(Pending(t, tenant, m), Pending(s, tenant, m));
    }
  }

  /** Recording moves a turn from pending to used. */
  lemma WriteEffect(s: State, limits: map<Tenant, nat>, n: nat, tenant: Tenant, m: Month)
    ensures var t := Advance(s, limits, Write(n));
      Used(t.usage, UsageKey(tenant, m)) + |Pending(t, tenant, m)| <= Used(s.usage, UsageKey(tenant, m))
        + |Pending(s, tenant, m)|
  {
    var t := Advance(s, limits, Write(n));
    if n in s.turns && s.turns[n].phase == Recording(m) && s.turns[n].tenant == tenant {
      assert n in Pending(s, tenant, m);
      assert Pending(t, tenant, m) == Pending(s, tenant, m) - {n};
    } else {
      SubsetSize(Pending(t, tenant, m), Pending(s, tenant, m));
    }
  }

  /** At a month's end every turn in flight may land in the new, still empty, month. */
  lemma MonthEffect(s: State, limits: map<Tenant, nat>, tenant: Tenant, limit: nat, c: nat, m: Month)
    requires Inv(s, tenant, limit, c) && limit >= 1 && |TurnsOf(s, tenant)| <= c
    ensures var t := Advance(s, limits, MonthPasses);
      Used(t.usage, UsageKey(tenant, m)) + |Pending(t, tenant, m)| <= limit - 1 + c
  {
    var t := Advance(s, limits, MonthPasses);
    if m == t.now {
      SubsetSize(Pending(t, tenant, m), TurnsOf(s, tenant));
    } else {
      SubsetSize(Pending(t, tenant, m), Pending(s, tenant, m));
    }
  }

  lemma OtherEffect(s: State, limits: map<Tenant, nat>, step: Step, tenant: Tenant, m: Month)
    requires step.Start? || step.Finish? || step.Drop?
    ensures Advance(s, limits, step).usage == s.usage
    ensures |Pending(Advance(s, limits, step), tenant, m)| <= |Pending(s, tenant, m)|
  {
    SubsetSize(Pending(Advance(s, limits, step), tenant, m), Pending(s, tenant, m));
  }

  /** What one step does to the tenant's row of a month and to the turns that may add to it. */
  lemma StepEffect(s: State, limits: map<Tenant, nat>, step: Step, tenant: Tenant, limit: nat, c: nat, m: Month)
    requires Inv(s, tenant, limit, c) && limit == LimitOf(limits, tenant) && limit >= 1
    requires |TurnsOf(s, tenant)| <= c && |TurnsOf(Advance(s, limits, step), tenant)| <= c
    ensures var t := Advance(s, limits, step);
      Used(t.usage, UsageKey(tenant, m)) + |Pending(t, tenant, m)| <= limit - 1 + c
  {
    hide Advance, Pending, TurnsOf, Used;
    match step
    case Read(n) => ReadEffect(s, limits, n, tenant, limit, c, m);
    case Write(n) => WriteEffect(s, limits, n, tenant, m);
    case MonthPasses => MonthEffect(s, limits, tenant, limit, c, m);
    case _ => OtherEffect(s, limits, step, tenant, m);
  }

  lemma StepKeepsInv(s: State, limits: map<Tenant, nat>, step: Step, tenant: Tenant, limit: nat, c: nat)
    requires Inv(s, tenant, limit, c) && limit == LimitOf(limits, tenant) && limit >= 1
    requires |TurnsOf(s, tenant)| <= c && |TurnsOf(Advance(s, limits, step), tenant)| <= c
    ensures Inv(Advance(s, limits, step), tenant, limit, c)
  {
    forall m: Month
      ensures Used(Advance(s, limits, step).usage, UsageKey(tenant, m))
        + |Pending(Advance(s, limits, step), tenant, m)| <= limit - 1 + c
    {
      StepEffect(s, limits, step, tenant, limit, c, m);
    }
  }

  lemma {:induction false} RunKeepsInv(s: State, limits: map<Tenant, nat>, steps: seq<Step>, tenant: Tenant,
      limit: nat, c: nat)
    requires Inv(s, tenant, limit, c) && limit == LimitOf(limits, tenant) && limit >= 1
    requires Bounded(s, limits, steps, tenant, c)
    ensures Inv(Run(s, limits, steps), tenant, limit, c)
    decreases |steps|
  {
    if steps != [] {
      assert Bounded(Advance(s, limits, steps[0]), limits, steps[1..], tenant, c);
      StepKeepsInv(s, limits, steps[0], tenant, limit, c);
      RunKeepsInv(Advance(s, limits, steps[0]), limits, steps[1..], tenant, limit, c);
    }
  }

  const START: State := State(0, map[], map[])

  /** The overrun bound: with at most `c` of a tenant's turns in flight, no month's row ever exceeds the
      limit by more than `c - 1`, counting what admitted turns may still add, over every interleaving of
      checks, model calls, failures and records, and across month ends. */
  lemma OverrunBound(limits: map<Tenant, nat>, steps: seq<Step>, tenant: Tenant, c: nat, month: Month)
    requires LimitOf(limits, tenant) >= 1 && Bounded(START, limits, steps, tenant, c)
    ensures var s := Run(START, limits, steps);
      && Used(s.usage, UsageKey(tenant, month)) + |Pending(s, tenant, month)| <= LimitOf(limits, tenant) - 1 + c
      && Used(s.usage, UsageKey(tenant, month)) <= LimitOf(limits, tenant) + c - 1
  {
    assert forall m :: Pending(START, tenant, m) == {};
    RunKeepsInv(START, limits, steps, tenant, LimitOf(limits, tenant), c);
  }

  // ---- The bound is exact ----

  ghost predicate Reachable(s: State, limits: map<Tenant, nat>, tenant: Tenant, c: nat) {
    exists steps :: Bounded(START, limits, steps, tenant, c) && Run(START, limits, steps) == s
  }

  lemma {:induction false} BoundedSnoc(s: State, limits: map<Tenant, nat>, steps: seq<Step>, step: Step,
      tenant: Tenant, c: nat)
    requires Bounded(s, limits, steps, tenant, c)
      && |TurnsOf(Advance(Run(s, limits, steps), limits, step), tenant)| <= c
    ensures Bounded(s, limits, steps + [step], tenant, c)
    ensures Run(s, limits, steps + [step]) == Advance(Run(s, limits, steps), limits, step)
    decreases |steps|
  {
    hide Advance;
    if steps == [] {
      assert [] + [step] == [step] && [step][1..] == [];
      assert Bounded(Advance(s, limits, step), limits, [], tenant, c);
    } else {
      assert (steps + [step])[1..] == steps[1..] + [step];
      BoundedSnoc(Advance(s, limits, steps[0]), limits, steps[1..], step, tenant, c);
    }
  }

  lemma Extend(s: State, t: State, limits: map<Tenant, nat>, step: Step, tenant: Tenant, c: nat)
    requires Reachable(s, limits, tenant, c) && t == Advance(s, limits, step) && |TurnsOf(t, tenant)| <= c
    ensures Reachable(t, limits, tenant, c)
  {
    var steps :| Bounded(START, limits, steps, tenant, c) && Run(START, limits, steps) == s;
    BoundedSnoc(START, limits, steps, step, tenant, c);
  }

  function Numbers(n: nat): (r: set<nat>)
    ensures |r| == n && forall i: nat :: i in r <==> i < n
  {
    if n == 0 then {} else Numbers(n - 1) + {n - 1}
  }

  /** `used` messages in the first month and turns 0..admitted-1 with the model. */
  function Busy(tenant: Tenant, used: nat, admitted: nat): State {
    State(0, if used == 0 then map[] else map[UsageKey(tenant, 0) := Usage(used, 0, 0)],
          map n | n in Numbers(admitted) :: Turn(tenant, Admitted))
  }

  lemma BusySize(tenant: Tenant, used: nat, admitted: nat)
    ensures |TurnsOf(Busy(tenant, used, admitted), tenant)| == admitted
  {
    assert TurnsOf(Busy(tenant, used, admitted), tenant) == Numbers(admitted);
  }

  lemma AdmitSteps(limits: map<Tenant, nat>, tenant: Tenant, used: nat, admitted: nat)
    requires used < LimitOf(limits, tenant)
    ensures var s1 := Advance(Busy(tenant, used, admitted), limits, Start(admitted, tenant));
      && Advance(s1, limits, Read(admitted)) == Busy(tenant, used, admitted + 1)
      && TurnsOf(s1, tenant) == TurnsOf(Busy(tenant, used, admitted + 1), tenant)
  {
    var s1 := Advance(Busy(tenant, used, admitted), limits, Start(admitted, tenant));
    assert Used(s1.usage, UsageKey(tenant, 0)) == used;
    assert Advance(s1, limits, Read(admitted)).turns == Busy(tenant, used, admitted + 1).turns;
  }

  /** One more turn is checked and admitted. */
  lemma AdmitOne(limits: map<Tenant, nat>, tenant: Tenant, used: nat, admitted: nat, c: nat)
    requires Reachable(Busy(tenant, used, admitted), limits, tenant, c)
    requires used < LimitOf(limits, tenant) && admitted < c
    ensures Reachable(Busy(tenant, used, admitted + 1), limits, tenant, c)
  {
    hide Advance, Busy, Reachable, LimitOf, TurnsOf;
    var s := Busy(tenant, used, admitted);
    var s1 := Advance(s, limits, Start(admitted, tenant));
    AdmitSteps(limits, tenant, used, admitted);
    BusySize(tenant, used, admitted + 1);
    Extend(s, s1, limits, Start(admitted, tenant), tenant, c);
    Extend(s1, Busy(tenant, used, admitted + 1), limits, Read(admitted), tenant, c);
  }

  lemma RecordSteps(limits: map<Tenant, nat>, tenant: Tenant, used: nat, admitted: nat)
    ensures var s1 := Advance(Busy(tenant, used, admitted + 1), limits, Finish(admitted));
      && Advance(s1, limits, Write(admitted)) == Busy(tenant, used + 1, admitted)
      && TurnsOf(s1, tenant) == TurnsOf(Busy(tenant, used, admitted + 1), tenant)
  {
    var s1 := Advance(Busy(tenant, used, admitted + 1), limits, Finish(admitted));
    var s2 := Advance(s1, limits, Write(admitted));
    assert s2.turns == Busy(tenant, used + 1, admitted).turns;
    assert s2.usage == Busy(tenant, used + 1, admitted).usage;
  }

  /** One admitted turn is recorded. */
  lemma RecordOne(limits: map<Tenant, nat>, tenant: Tenant, used: nat, admitted: nat, c: nat)
    requires Reachable(Busy(tenant, used, admitted + 1), limits, tenant, c) && admitted < c
    ensures Reachable(Busy(tenant, used + 1, admitted), limits, tenant, c)
  {
    hide Advance, Busy, Reachable, LimitOf, TurnsOf;
    var s := Busy(tenant, used, admitted + 1);
    var s1 := Advance(s, limits, Finish(admitted));
    RecordSteps(limits, tenant, used, admitted);
    BusySize(tenant, used, admitted + 1);
    BusySize(tenant, used + 1, admitted);
    Extend(s, s1, limits, Finish(admitted), tenant, c);
    Extend(s1, Busy(tenant, used + 1, admitted), limits, Write(admitted), tenant, c);
  }

  lemma {:induction false} Fill(limits: map<Tenant, nat>, tenant: Tenant, used: nat, c: nat)
    requires used < LimitOf(limits, tenant) && c >= 1
    ensures Reachable(Busy(tenant, used, 0), limits, tenant, c)
  {
    if used == 0 {
      assert Busy(tenant, 0, 0) == START;
      assert TurnsOf(START, tenant) == {};
      assert Bounded(START, limits, [], tenant, c) && Run(START, limits, []) == START;
    } else {
      Fill(limits, tenant, used - 1, c);
      AdmitOne(limits, tenant, used - 1, 0, c);
      RecordOne(limits, tenant, used - 1, 0, c);
    }
  }

  lemma {:induction false} Crowd(limits: map<Tenant, nat>, tenant: Tenant, admitted: nat, c: nat)
    requires LimitOf(limits, tenant) >= 1 && c >= 1 && admitted <= c
    ensures Reachable(Busy(tenant, LimitOf(limits, tenant) - 1, admitted), limits, tenant, c)
  {
    hide Busy, Reachable, LimitOf;
    if admitted == 0 {
      Fill(limits, tenant, LimitOf(limits, tenant) - 1, c);
    } else {
      Crowd(limits, tenant, admitted - 1, c);
      AdmitOne(limits, tenant, LimitOf(limits, tenant) - 1, admitted - 1, c);
    }
  }

  lemma {:induction false} Drain(limits: map<Tenant, nat>, tenant: Tenant, recorded: nat, c: nat)
    requires LimitOf(limits, tenant) >= 1 && c >= 1 && recorded <= c
    ensures Reachable(Busy(tenant, LimitOf(limits, tenant) - 1 + recorded, c - recorded), limits, tenant, c)
  {
    hide Busy, Reachable, LimitOf;
    if recorded == 0 {
      Crowd(limits, tenant, c, c);
    } else {
      Drain(limits, tenant, recorded - 1, c);
      RecordOne(limits, tenant, LimitOf(limits, tenant) - 1 + recorded - 1, c - recorded, c);
    }
  }

  /** The bound cannot be improved: for every limit and every concurrency some run ends exactly on it. */
  lemma OverrunIsExact(limits: map<Tenant, nat>, tenant: Tenant, c: nat)
    requires LimitOf(limits, tenant) >= 1 && c >= 1
    ensures exists steps ::
      (Bounded(START, limits, steps, tenant, c)
       && Used(Run(START, limits, steps).usage, UsageKey(tenant, 0)) == LimitOf(limits, tenant) + c - 1)
  {
    Drain(limits, tenant, c, c);
    var end := Busy(tenant, LimitOf(limits, tenant) - 1 + c, 0);
    var steps :| Bounded(START, limits, steps, tenant, c) && Run(START, limits, steps) == end;
    assert Used(end.usage, UsageKey(tenant, 0)) == LimitOf(limits, tenant) + c - 1;
  }

  // ---- No plan, no turns ----

  predicate Shut(s: State, tenant: Tenant) {
    && (forall n :: n in s.turns && s.turns[n].tenant == tenant ==> s.turns[n].phase.Checking?)
    && (forall k :: k in s.usage ==> k.tenant != tenant)
  }

  /** A tenant with a zero limit, or with no plan row at all, is never admitted and uses nothing. */
  lemma {:induction false} ZeroLimitNeverAdmits(s: State, limits: map<Tenant, nat>, steps: seq<Step>, tenant: Tenant)
    requires LimitOf(limits, tenant) == 0 && Shut(s, tenant)
    ensures Shut(Run(s, limits, steps), tenant)
    decreases |steps|
  {
    if steps != [] {
      ZeroLimitNeverAdmits(Advance(s, limits, steps[0]), limits, steps[1..], tenant);
    }
  }
}
