/** Salary components: each component's amount from its computation type,
    the Fixed Allowance as what is left of the wage, and the PF contribution.
    A salary's components are the rows of the component table carrying its
    id, in table (id) order. */
module SalaryService {
  import opened Common
  import opened Records

  const PERCENTAGE_OF_WAGE: string := "PERCENTAGE_OF_WAGE"
  const PERCENTAGE_OF_BASIC: string := "PERCENTAGE_OF_BASIC"
  const FIXED_AMOUNT: string := "FIXED_AMOUNT"
  const BASIC: string := "Basic"
  const FIXED_ALLOWANCE: string := "Fixed Allowance"
  const SALARY_NOT_FOUND: string := "Salary not found"

  /** The components of salary `salaryId`, in table order. */
  function ComponentsOf(cs: seq<SalaryComponent>, salaryId: int): (r: seq<SalaryComponent>)
    ensures |r| <= |cs|
  {
    if cs == [] then []
    else ComponentsOf(cs[..|cs| - 1], salaryId) + (if cs[|cs| - 1].salaryId == salaryId then [cs[|cs| - 1]] else [])
  }

  lemma ComponentsOfStep(cs: seq<SalaryComponent>, i: int, salaryId: int)
    requires 0 <= i < |cs|
    ensures ComponentsOf(cs[..i + 1], salaryId)
            == ComponentsOf(cs[..i], salaryId) + (if cs[i].salaryId == salaryId then [cs[i]] else [])
  {
    assert cs[..i + 1][..i] == cs[..i];
  }

  /** Every component of the salary's list belongs to it. */
  lemma {:induction false} ComponentsOfBelong(cs: seq<SalaryComponent>, salaryId: int)
    ensures forall j :: 0 <= j < |ComponentsOf(cs, salaryId)| ==> ComponentsOf(cs, salaryId)[j].salaryId == salaryId
    decreases |cs|
  {
    if cs != [] {
      ComponentsOfBelong(cs[..|cs| - 1], salaryId);
    }
  }

  /** A salary's list holds exactly the table's rows of that salary. */
  lemma {:induction false} ComponentsOfMembers(cs: seq<SalaryComponent>, salaryId: int)
    ensures forall c :: c in ComponentsOf(cs, salaryId) <==> c in cs && c.salaryId == salaryId
    decreases |cs|
  {
    if cs != [] {
      var init := cs[..|cs| - 1];
      ComponentsOfMembers(init, salaryId);
      assert cs == init + [cs[|cs| - 1]];
    }
  }

  /** `components.find(c => c.name === name)`: the first component with that name. */
  function FindByName(cs: seq<SalaryComponent>, name: string): (r: Option<SalaryComponent>)
    ensures r.Some? ==> r.value.name == name
  {
    if cs == [] then None
    else
      var earlier := FindByName(cs[..|cs| - 1], name);
      if earlier.Some? then earlier
      else if cs[|cs| - 1].name == name then Some(cs[|cs| - 1])
      else None
  }

  /** `find` returns the first match: the component found sits at a position
      no earlier component with the name precedes, and nothing is found only
      when no component has the name. */
  lemma {:induction false} FindByNameFirst(cs: seq<SalaryComponent>, name: string)
    ensures FindByName(cs, name).None? ==> forall i :: 0 <= i < |cs| ==> cs[i].name != name
    ensures FindByName(cs, name).Some? ==>
              exists j :: 0 <= j < |cs| && cs[j] == FindByName(cs, name).value &&
                          forall i :: 0 <= i < j ==> cs[i].name != name
    decreases |cs|
  {
    if cs != [] {
      var n := |cs| - 1;
      var earlier := FindByName(cs[..n], name);
      FindByNameFirst(cs[..n], name);
      assert forall i :: 0 <= i < n ==> cs[..n][i] == cs[i];
      if earlier.Some? {
        var j :| 0 <= j < n && cs[..n][j] == earlier.value && forall i :: 0 <= i < j ==> cs[..n][i].name != name;
        assert cs[j] == FindByName(cs, name).value;
      }
    }
  }

  /** The amount of one component in the month of wage `monthWage`, given the
      salary's Basic component. An unknown computation type gives 0. */
  function ComponentAmount(c: SalaryComponent, basic: Option<SalaryComponent>, monthWage: real): real {
    if c.computationType == PERCENTAGE_OF_WAGE then monthWage * c.value / 100.0
    else if c.computationType == PERCENTAGE_OF_BASIC then
      (if basic.Some? then (monthWage * basic.value.value / 100.0) * c.value / 100.0 else 0.0)
    else if c.computationType == FIXED_AMOUNT then c.value
    else 0.0
  }

  /** The rules of the `switch`, one per computation type. */
  lemma ComponentAmountRules(c: SalaryComponent, basic: Option<SalaryComponent>, monthWage: real)
    ensures c.computationType == PERCENTAGE_OF_WAGE ==> ComponentAmount(c, basic, monthWage) * 100.0 == monthWage * c.value
    ensures c.computationType == PERCENTAGE_OF_BASIC && basic.Some? ==>
              ComponentAmount(c, basic, monthWage) * 10000.0 == monthWage * basic.value.value * c.value
    ensures c.computationType == PERCENTAGE_OF_BASIC && basic.None? ==> ComponentAmount(c, basic, monthWage) == 0.0
    ensures c.computationType == FIXED_AMOUNT ==> ComponentAmount(c, basic, monthWage) == c.value
    ensures c.computationType !in {PERCENTAGE_OF_WAGE, PERCENTAGE_OF_BASIC, FIXED_AMOUNT} ==>
              ComponentAmount(c, basic, monthWage) == 0.0
  {
  }

  /** The list `calculateSalaryComponents` returns: each component with the
      amount computed in the loop. */
  function Computed(cs: seq<SalaryComponent>, basic: Option<SalaryComponent>, monthWage: real): (r: seq<SalaryComponent>)
    ensures |r| == |cs|
  {
    if cs == [] then []
    else Computed(cs[..|cs| - 1], basic, monthWage) + [cs[|cs| - 1].(amount := ComponentAmount(cs[|cs| - 1], basic, monthWage))]
  }

  /** Each component of the returned list carries its own computed amount. */
  lemma {:induction false} ComputedAt(cs: seq<SalaryComponent>, basic: Option<SalaryComponent>, monthWage: real)
    ensures forall j :: 0 <= j < |cs| ==>
              Computed(cs, basic, monthWage)[j] == cs[j].(amount := ComponentAmount(cs[j], basic, monthWage))
    decreases |cs|
  {
    if cs != [] {
      ComputedAt(cs[..|cs| - 1], basic, monthWage);
    }
  }

  lemma ComputedAppend(cs: seq<SalaryComponent>, extra: seq<SalaryComponent>, basic: Option<SalaryComponent>, monthWage: real)
    requires |extra| <= 1
    ensures Computed(cs + extra, basic, monthWage) == Computed(cs, basic, monthWage) + Computed(extra, basic, monthWage)
  {
    if extra == [] {
      assert cs + extra == cs;
    } else {
      assert (cs + extra)[..|cs|] == cs;
    }
  }

  function SumAmounts(cs: seq<SalaryComponent>): real {
    if cs == [] then 0.0 else SumAmounts(cs[..|cs| - 1]) + cs[|cs| - 1].amount
  }

  /** The sum the loop accumulates, over the rows of salary `salaryId`. */
  function LoopTotal(cs: seq<SalaryComponent>, salaryId: int, basic: Option<SalaryComponent>, monthWage: real): real {
    if cs == [] then 0.0
    else LoopTotal(cs[..|cs| - 1], salaryId, basic, monthWage)
         + (if cs[|cs| - 1].salaryId == salaryId then ComponentAmount(cs[|cs| - 1], basic, monthWage) else 0.0)
  }

  lemma LoopTotalStep(cs: seq<SalaryComponent>, i: int, salaryId: int, basic: Option<SalaryComponent>, monthWage: real)
    requires 0 <= i < |cs|
    ensures LoopTotal(cs[..i + 1], salaryId, basic, monthWage)
            == LoopTotal(cs[..i], salaryId, basic, monthWage)
               + (if cs[i].salaryId == salaryId then ComponentAmount(cs[i], basic, monthWage) else 0.0)
  {
    assert cs[..i + 1][..i] == cs[..i];
  }

  /** The stored amounts of the rows of salary `salaryId`, summed. */
  function RowSum(cs: seq<SalaryComponent>, salaryId: int): real {
    if cs == [] then 0.0
    else RowSum(cs[..|cs| - 1], salaryId) + (if cs[|cs| - 1].salaryId == salaryId then cs[|cs| - 1].amount else 0.0)
  }

  lemma {:induction false} RowSumIsListSum(cs: seq<SalaryComponent>, salaryId: int)
    ensures RowSum(cs, salaryId) == SumAmounts(ComponentsOf(cs, salaryId))
    decreases |cs|
  {
    if cs != [] {
      var n := |cs| - 1;
      RowSumIsListSum(cs[..n], salaryId);
      var prefix := ComponentsOf(cs[..n], salaryId);
      if cs[n].salaryId == salaryId {
        assert (prefix + [cs[n]])[..|prefix|] == prefix;
      } else {
        assert prefix + [] == prefix;
      }
    }
  }

  /** The table position of the first component of the salary with the name. */
  function FirstIndex(cs: seq<SalaryComponent>, salaryId: int, name: string): (r: Option<nat>)
    ensures r.Some? ==> r.value < |cs| && cs[r.value].salaryId == salaryId && cs[r.value].name == name
  {
    if cs == [] then None
    else
      var earlier := FirstIndex(cs[..|cs| - 1], salaryId, name);
      if earlier.Some? then earlier
      else if cs[|cs| - 1].salaryId == salaryId && cs[|cs| - 1].name == name then Some(|cs| - 1)
      else None
  }

  lemma FirstIndexStep(cs: seq<SalaryComponent>, i: int, salaryId: int, name: string)
    requires 0 <= i < |cs|
    ensures FirstIndex(cs[..i + 1], salaryId, name)
            == if FirstIndex(cs[..i], salaryId, name).Some? then FirstIndex(cs[..i], salaryId, name)
               else if cs[i].salaryId == salaryId && cs[i].name == name then Some(i)
               else None
  {
    assert cs[..i + 1][..i] == cs[..i];
  }

  lemma FindByNameAppend(a: seq<SalaryComponent>, b: seq<SalaryComponent>, name: string)
    requires |b| <= 1
    ensures FindByName(a + b, name) == if FindByName(a, name).Some? then FindByName(a, name) else FindByName(b, name)
  {
    if b != [] {
      assert (a + b)[..|a + b| - 1] == a;
    } else {
      assert a + b == a;
    }
  }

  /** The component `find` picks from the salary's list is the row at the
      table position `FirstIndex` names. */
  lemma {:induction false} FirstIndexFinds(cs: seq<SalaryComponent>, salaryId: int, name: string)
    ensures var i := FirstIndex(cs, salaryId, name);
            var f := FindByName(ComponentsOf(cs, salaryId), name);
            (i.Some? <==> f.Some?) && (i.Some? ==> f.value == cs[i.value])
    decreases |cs|
  {
    if cs != [] {
      var n := |cs| - 1;
      FirstIndexFinds(cs[..n], salaryId, name);
      var prefix := ComponentsOf(cs[..n], salaryId);
      var last := if cs[n].salaryId == salaryId then [cs[n]] else [];
      FindByNameAppend(prefix, last, name);
    }
  }

  /** One row of the table after `calculateSalaryComponents`. */
  function SettleRow(c: SalaryComponent, j: nat, salaryId: int, basic: Option<SalaryComponent>, monthWage: real,
                     fa: Option<nat>, residual: real): SalaryComponent {
    if fa == Some(j) then c.(amount := residual)
    else if c.salaryId == salaryId then c.(amount := ComponentAmount(c, basic, monthWage))
    else c
  }

  /** The component table after the loop and the Fixed Allowance update: the
      salary's rows carry their computed amounts, except the row at `fa`,
      which carries `residual`. Other rows are untouched. */
  function Settle(cs: seq<SalaryComponent>, salaryId: int, basic: Option<SalaryComponent>, monthWage: real,
                  fa: Option<nat>, residual: real): (r: seq<SalaryComponent>)
    ensures |r| == |cs|
  {
    if cs == [] then []
    else Settle(cs[..|cs| - 1], salaryId, basic, monthWage, fa, residual)
         + [SettleRow(cs[|cs| - 1], |cs| - 1, salaryId, basic, monthWage, fa, residual)]
  }

  lemma {:induction false} SettleAt(cs: seq<SalaryComponent>, salaryId: int, basic: Option<SalaryComponent>,
                                    monthWage: real, fa: Option<nat>, residual: real)
    ensures forall j :: 0 <= j < |cs| ==>
              Settle(cs, salaryId, basic, monthWage, fa, residual)[j] == SettleRow(cs[j], j, salaryId, basic, monthWage, fa, residual)
    decreases |cs|
  {
    if cs != [] {
      SettleAt(cs[..|cs| - 1], salaryId, basic, monthWage, fa, residual);
    }
  }

  /** The table `calculateSalaryComponents(salaryId, monthWage)` leaves: the
      Fixed Allowance row holds the wage less the loop total. */
  function Settled(cs: seq<SalaryComponent>, salaryId: int, monthWage: real): (r: seq<SalaryComponent>)
    ensures |r| == |cs|
    ensures forall j :: 0 <= j < |cs| ==>
              && r[j].id == cs[j].id && r[j].salaryId == cs[j].salaryId && r[j].name == cs[j].name
              && r[j].computationType == cs[j].computationType && r[j].value == cs[j].value
    ensures forall j :: 0 <= j < |cs| && cs[j].salaryId != salaryId ==> r[j] == cs[j]
  {
    var basic := FindByName(ComponentsOf(cs, salaryId), BASIC);
    var fa := FirstIndex(cs, salaryId, FIXED_ALLOWANCE);
    var residual := monthWage - LoopTotal(cs, salaryId, basic, monthWage);
    SettleAt(cs, salaryId, basic, monthWage, fa, residual);
    Settle(cs, salaryId, basic, monthWage, fa, residual)
  }

  /** Over the salary's rows, the settled table sums to the loop total, with
      the row at `fa` contributing `residual` instead of its computed amount. */
  lemma {:induction false} SettleSum(cs: seq<SalaryComponent>, salaryId: int, basic: Option<SalaryComponent>,
                                     monthWage: real, fa: Option<nat>, residual: real)
    requires fa.Some? ==> fa.value < |cs| && cs[fa.value].salaryId == salaryId
    ensures RowSum(Settle(cs, salaryId, basic, monthWage, fa, residual), salaryId)
            == LoopTotal(cs, salaryId, basic, monthWage)
               + (if fa.Some? then residual - ComponentAmount(cs[fa.value], basic, monthWage) else 0.0)
    decreases |cs|
  {
    if cs != [] {
      var n := |cs| - 1;
      var prefix := Settle(cs[..n], salaryId, basic, monthWage, fa, residual);
      var s := Settle(cs, salaryId, basic, monthWage, fa, residual);
      assert s[..n] == prefix;
      assert s[n] == SettleRow(cs[n], n, salaryId, basic, monthWage, fa, residual);
      assert RowSum(s, salaryId) == RowSum(prefix, salaryId) + (if s[n].salaryId == salaryId then s[n].amount else 0.0);
      var loopInit := LoopTotal(cs[..n], salaryId, basic, monthWage);
      assert LoopTotal(cs, salaryId, basic, monthWage)
             == loopInit + (if cs[n].salaryId == salaryId then ComponentAmount(cs[n], basic, monthWage) else 0.0);
      if fa == Some(n) {
        SettleDropsIndex(cs[..n], salaryId, basic, monthWage, fa, residual);
        SettleSum(cs[..n], salaryId, basic, monthWage, None, residual);
        assert RowSum(prefix, salaryId) == loopInit;
      } else {
        SettleSum(cs[..n], salaryId, basic, monthWage, fa, residual);
        if fa.Some? {
          assert cs[..n][fa.value] == cs[fa.value];
        }
      }
    }
  }

  /** An `fa` at or beyond the end of the table settles the same rows as none. */
  lemma {:induction false} SettleDropsIndex(cs: seq<SalaryComponent>, salaryId: int, basic: Option<SalaryComponent>,
                                            monthWage: real, fa: Option<nat>, residual: real)
    requires fa.Some? && fa.value >= |cs|
    ensures Settle(cs, salaryId, basic, monthWage, fa, residual) == Settle(cs, salaryId, basic, monthWage, None, residual)
    decreases |cs|
  {
    if cs != [] {
      SettleDropsIndex(cs[..|cs| - 1], salaryId, basic, monthWage, fa, residual);
    }
  }

  /** What the stored amounts of the salary's components add up to after
      `calculateSalaryComponents`: the wage, less the Fixed Allowance's own
      loop amount (which the residual already counted); without a Fixed
      Allowance, the loop total. */
  lemma SettledTotal(cs: seq<SalaryComponent>, salaryId: int, monthWage: real)
    ensures var list := ComponentsOf(cs, salaryId);
            var basic := FindByName(list, BASIC);
            var fa := FindByName(list, FIXED_ALLOWANCE);
            var stored := SumAmounts(ComponentsOf(Settled(cs, salaryId, monthWage), salaryId));
            && (fa.Some? ==> stored == monthWage - ComponentAmount(fa.value, basic, monthWage))
            && (fa.None? ==> stored == SumAmounts(Computed(list, basic, monthWage)))
  {
    var list := ComponentsOf(cs, salaryId);
    var basic := FindByName(list, BASIC);
    var faIndex := FirstIndex(cs, salaryId, FIXED_ALLOWANCE);
    var total := LoopTotal(cs, salaryId, basic, monthWage);
    var residual := monthWage - total;
    var settled := Settled(cs, salaryId, monthWage);
    assert settled == Settle(cs, salaryId, basic, monthWage, faIndex, residual);
    FirstIndexFinds(cs, salaryId, FIXED_ALLOWANCE);
    SettleSum(cs, salaryId, basic, monthWage, faIndex, residual);
    RowSumIsListSum(settled, salaryId);
    var stored := SumAmounts(ComponentsOf(settled, salaryId));
    if faIndex.Some? {
      var own := ComponentAmount(cs[faIndex.value], basic, monthWage);
      assert stored == total + (residual - own);
    } else {
      LoopTotalIsListSum(cs, salaryId, basic, monthWage);
    }
  }

  lemma SumAmountsAppend(a: seq<SalaryComponent>, b: seq<SalaryComponent>)
    requires |b| <= 1
    ensures SumAmounts(a + b) == SumAmounts(a) + SumAmounts(b)
  {
    if b == [] {
      assert a + b == a;
    } else {
      assert (a + b)[..|a|] == a;
    }
  }

  lemma {:induction false} LoopTotalIsListSum(cs: seq<SalaryComponent>, salaryId: int, basic: Option<SalaryComponent>, monthWage: real)
    ensures LoopTotal(cs, salaryId, basic, monthWage) == SumAmounts(Computed(ComponentsOf(cs, salaryId), basic, monthWage))
    decreases |cs|
  {
    if cs != [] {
      var n := |cs| - 1;
      LoopTotalIsListSum(cs[..n], salaryId, basic, monthWage);
      var prefix := ComponentsOf(cs[..n], salaryId);
      var last := if cs[n].salaryId == salaryId then [cs[n]] else [];
      assert ComponentsOf(cs, salaryId) == prefix + last;
      ComputedAppend(prefix, last, basic, monthWage);
      SumAmountsAppend(Computed(prefix, basic, monthWage), Computed(last, basic, monthWage));
      if last != [] {
        assert SumAmounts(Computed(last, basic, monthWage)) == ComponentAmount(cs[n], basic, monthWage);
      }
    }
  }

  /** A Fixed Allowance whose own type contributes nothing makes the stored
      amounts of the salary add up to exactly the wage. */
  lemma SettledTotalIsWage(cs: seq<SalaryComponent>, salaryId: int, monthWage: real)
    requires var fa := FindByName(ComponentsOf(cs, salaryId), FIXED_ALLOWANCE);
             fa.Some? && fa.value.computationType !in {PERCENTAGE_OF_WAGE, PERCENTAGE_OF_BASIC, FIXED_AMOUNT}
    ensures SumAmounts(ComponentsOf(Settled(cs, salaryId, monthWage), salaryId)) == monthWage
  {
    SettledTotal(cs, salaryId, monthWage);
  }

  /** Salary `salaryId` exists. */
  predicate SalaryExists(salaries: map<int, Salary>, salaryId: int) {
    exists u | u in salaries :: salaries[u].id == salaryId
  }

  /** The table during the loop: rows before `i` carry their computed amounts. */
  ghost predicate LoopState(now: seq<SalaryComponent>, table: seq<SalaryComponent>, i: int, salaryId: int,
                            basic: Option<SalaryComponent>, monthWage: real)
    requires 0 <= i <= |table|
  {
    && |now| == |table|
    && (forall j :: i <= j < |table| ==> now[j] == table[j])
    && (forall j :: 0 <= j < i ==> now[j] == SettleRow(table[j], j, salaryId, basic, monthWage, None, 0.0))
  }

  /** The table at the end of the loop, with the Fixed Allowance row
      overwritten, is the settled table. */
  lemma LoopSettles(now: seq<SalaryComponent>, table: seq<SalaryComponent>, salaryId: int,
                    basic: Option<SalaryComponent>, monthWage: real, fa: Option<nat>, total: real)
    requires LoopState(now, table, |table|, salaryId, basic, monthWage)
    requires basic == FindByName(ComponentsOf(table, salaryId), BASIC)
    requires fa == FirstIndex(table, salaryId, FIXED_ALLOWANCE)
    requires total == LoopTotal(table, salaryId, basic, monthWage)
    ensures fa.Some? ==> now[fa.value := now[fa.value].(amount := monthWage - total)] == Settled(table, salaryId, monthWage)
    ensures fa.None? ==> now == Settled(table, salaryId, monthWage)
  {
    var settled := Settled(table, salaryId, monthWage);
    SettleAt(table, salaryId, basic, monthWage, fa, monthWage - total);
    var after := if fa.Some? then now[fa.value := now[fa.value].(amount := monthWage - total)] else now;
    forall j | 0 <= j < |table|
      ensures after[j] == settled[j]
    {
      assert settled[j] == SettleRow(table[j], j, salaryId, basic, monthWage, fa, monthWage - total);
    }
  }

  /** Writing row `i`'s computed amount extends the loop state by one row. */
  lemma LoopStateStep(now: seq<SalaryComponent>, table: seq<SalaryComponent>, i: int, salaryId: int,
                      basic: Option<SalaryComponent>, monthWage: real)
    requires 0 <= i < |table| && LoopState(now, table, i, salaryId, basic, monthWage)
    ensures var next := if table[i].salaryId == salaryId
                        then now[i := now[i].(amount := ComponentAmount(now[i], basic, monthWage))]
                        else now;
            LoopState(next, table, i + 1, salaryId, basic, monthWage)
  {
  }

  /** What the loop of `calculateSalaryComponents` has done after `i` rows:
      the rows written, the salary's rows met (`list`), their computed copies,
      the running total and the first Fixed Allowance position. */
  ghost predicate Progress(now: seq<SalaryComponent>, table: seq<SalaryComponent>, i: int, list: seq<SalaryComponent>,
                           components: seq<SalaryComponent>, total: real, fa: Option<nat>, salaryId: int,
                           basic: Option<SalaryComponent>, monthWage: real)
  {
    && 0 <= i <= |table|
    && LoopState(now, table, i, salaryId, basic, monthWage)
    && list == ComponentsOf(table[..i], salaryId)
    && components == Computed(list, basic, monthWage)
    && total == LoopTotal(table[..i], salaryId, basic, monthWage)
    && fa == FirstIndex(table[..i], salaryId, FIXED_ALLOWANCE)
  }

  /** One iteration of the loop extends the progress by row `i`. */
  lemma ProgressStep(now: seq<SalaryComponent>, table: seq<SalaryComponent>, i: int, list: seq<SalaryComponent>,
                     components: seq<SalaryComponent>, total: real, fa: Option<nat>, salaryId: int,
                     basic: Option<SalaryComponent>, monthWage: real)
    requires i < |table| && Progress(now, table, i, list, components, total, fa, salaryId, basic, monthWage)
    ensures now[i] == table[i]
    ensures var c := table[i];
            var amount := ComponentAmount(c, basic, monthWage);
            if c.salaryId == salaryId then
              Progress(now[i := c.(amount := amount)], table, i + 1, list + [c], components + [c.(amount := amount)],
                       total + amount, if fa.None? && c.name == FIXED_ALLOWANCE then Some(i) else fa,
                       salaryId, basic, monthWage)
            else
              Progress(now, table, i + 1, list, components, total, fa, salaryId, basic, monthWage)
  {
    var c := table[i];
    ComponentsOfStep(table, i, salaryId);
    FirstIndexStep(table, i, salaryId, FIXED_ALLOWANCE);
    LoopTotalStep(table, i, salaryId, basic, monthWage);
    LoopStateStep(now, table, i, salaryId, basic, monthWage);
    if c.salaryId == salaryId {
      ComputedAppend(list, [c], basic, monthWage);
    } else {
      assert list + [] == list;
    }
  }

  /** The loop of `calculateSalaryComponents`: each component of the salary
      gets its computed amount written back, pushed onto the returned list and
      added to the total; `fa` is where the first Fixed Allowance stands. */
  method WriteAmounts(db: Db, salaryId: int, basic: Option<SalaryComponent>, monthWage: real)
    returns (components: seq<SalaryComponent>, total: real, fa: Option<nat>)
    modifies db`components
    ensures LoopState(db.components, old(db.components), |old(db.components)|, salaryId, basic, monthWage)
    ensures components == Computed(ComponentsOf(old(db.components), salaryId), basic, monthWage)
    ensures total == LoopTotal(old(db.components), salaryId, basic, monthWage)
    ensures fa == FirstIndex(old(db.components), salaryId, FIXED_ALLOWANCE)
  {
    ghost var table := db.components;
    ghost var list: seq<SalaryComponent> := [];
    components, total, fa := [], 0.0, None;
    var i := 0;
    assert table[..0] == [];
    while i < |db.components|
      invariant Progress(db.components, table, i, list, components, total, fa, salaryId, basic, monthWage)
      decreases |table| - i
    {
      ProgressStep(db.components, table, i, list, components, total, fa, salaryId, basic, monthWage);
      var component := db.components[i];
      if component.salaryId == salaryId {
        var amount := ComponentAmount(component, basic, monthWage);
        db.components := db.components[i := component.(amount := amount)];
        list := list + [component];
        components := components + [component.(amount := amount)];
        total := total + amount;
        if fa.None? && component.name == FIXED_ALLOWANCE {
          fa := Some(i);
        }
      }
      i := i + 1;
    }
    assert table[..i] == table;
  }

  /** `calculateSalaryComponents(salaryId, monthWage)`: the loop over the
      salary's components, then the Fixed Allowance row is overwritten with
      the wage less the loop total. */
  method CalculateSalaryComponents(db: Db, salaryId: int, monthWage: real) returns (r: Result<seq<SalaryComponent>>)
    requires db.Valid()
    modifies db`components
    ensures db.Valid()
    ensures !SalaryExists(db.salaries, salaryId) ==>
              r == Err(Thrown(SALARY_NOT_FOUND)) && db.components == old(db.components)
    ensures SalaryExists(db.salaries, salaryId) ==>
              var list := ComponentsOf(old(db.components), salaryId);
              && r == Ok(Computed(list, FindByName(list, BASIC), monthWage))
              && db.components == Settled(old(db.components), salaryId, monthWage)
  {
    if !SalaryExists(db.salaries, salaryId) {
      return Err(Thrown(SALARY_NOT_FOUND));
    }
    ghost var table := db.components;
    var basic := FindByName(ComponentsOf(db.components, salaryId), BASIC);
    var components, total, fa := WriteAmounts(db, salaryId, basic, monthWage);
    LoopSettles(db.components, table, salaryId, basic, monthWage, fa, total);
    if fa.Some? {
      db.components := db.components[fa.value := db.components[fa.value].(amount := monthWage - total)];
    }
    SameIdsWellFormed(table, db.components, db.nextId);
    r := Ok(components);
  }

  /** `calculatePF(basicSalary, pfRate)` */
  function CalculatePF(basicSalary: real, pfRate: real): (r: real)
    ensures r * 100.0 == basicSalary * pfRate
  {
    basicSalary * pfRate / 100.0
  }

  /** `getBasicSalary(components)`: the amount of the first component named
      Basic, else 0. */
  function GetBasicSalary(cs: seq<SalaryComponent>): (r: real)
    ensures (forall c :: c in cs ==> c.name != BASIC) ==> r == 0.0
    ensures FindByName(cs, BASIC).Some? ==> r == FindByName(cs, BASIC).value.amount
  {
    FindByNameFirst(cs, BASIC);
    var basic := FindByName(cs, BASIC);
    if basic.Some? then basic.value.amount else 0.0
  }
}
