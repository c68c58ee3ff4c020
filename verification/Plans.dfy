/**
 Plan limits and the reseller allocation: saturating 64-bit sums in which unlimited absorbs
 everything, checked against a ceiling field by field.
 */
module Plans {
  import opened Text

  const U64_MAX: int := 0xFFFF_FFFF_FFFF_FFFF

  type U64 = x: int | 0 <= x <= U64_MAX

  /** `None` is unlimited. */
  type Limit = Option<U64>

  datatype Field =
    | Disk | Inodes | Bandwidth | Sites | Databases | Mailboxes
    | CronJobs | NodeApps | PhpWorkers | Memory | Cpu | BackupQuota

  datatype Limits = Limits(
    disk: Limit, inodes: Limit, bandwidth: Limit, sites: Limit, databases: Limit, mailboxes: Limit,
    cronJobs: Limit, nodeApps: Limit, phpWorkers: Limit, memory: Limit, cpu: Limit, backupQuota: Limit)

  datatype Exceeded = Exceeded(field: Field, requested: Limit, available: Limit)

  /** The order in which the fields are checked. */
  const ORDER: seq<Field> :=
    [Disk, Inodes, Bandwidth, Sites, Databases, Mailboxes,
     CronJobs, NodeApps, PhpWorkers, Memory, Cpu, BackupQuota]

  function Get(l: Limits, f: Field): Limit {
    match f
    case Disk => l.disk
    case Inodes => l.inodes
    case Bandwidth => l.bandwidth
    case Sites => l.sites
    case Databases => l.databases
    case Mailboxes => l.mailboxes
    case CronJobs => l.cronJobs
    case NodeApps => l.nodeApps
    case PhpWorkers => l.phpWorkers
    case Memory => l.memory
    case Cpu => l.cpu
    case BackupQuota => l.backupQuota
  }

  function Saturated(x: nat): U64 {
    if x <= U64_MAX then x else U64_MAX
  }

  function Add(a: Limit, b: Limit): Limit {
    if a.Some? && b.Some? then Some(Saturated(a.value + b.value)) else None
  }

  predicate Fits(value: Limit, ceiling: Limit) {
    match (value, ceiling)
    case (_, None) => true
    case (None, Some(_)) => false
    case (Some(v), Some(c)) => v <= c
  }

  function Plus(a: Limits, b: Limits): Limits {
    Limits(Add(a.disk, b.disk), Add(a.inodes, b.inodes), Add(a.bandwidth, b.bandwidth),
           Add(a.sites, b.sites), Add(a.databases, b.databases), Add(a.mailboxes, b.mailboxes),
           Add(a.cronJobs, b.cronJobs), Add(a.nodeApps, b.nodeApps), Add(a.phpWorkers, b.phpWorkers),
           Add(a.memory, b.memory), Add(a.cpu, b.cpu), Add(a.backupQuota, b.backupQuota))
  }

  /** Checks the fields in order and names the first one that does not fit. */
  function Check(l: Limits, ceiling: Limits, fields: seq<Field>): Result<(), Exceeded> {
    if fields == [] then Ok(())
    else if !Fits(Get(l, fields[0]), Get(ceiling, fields[0])) then
      Err(Exceeded(fields[0], Get(l, fields[0]), Get(ceiling, fields[0])))
    else Check(l, ceiling, fields[1..])
  }

  function FitsWithin(l: Limits, ceiling: Limits): Result<(), Exceeded> {
    Check(l, ceiling, ORDER)
  }

  function AssignmentFits(used: Limits, candidate: Limits, ceiling: Limits): Result<(), Exceeded> {
    FitsWithin(Plus(used, candidate), ceiling)
  }

  /** Nothing provisioned. */
  function Nothing(): Limits {
    var z := Some(0);
    Limits(z, z, z, z, z, z, z, z, z, z, z, z)
  }

  /** What a run of assignments has provisioned, totalled one plan at a time. */
  function Total(plans: seq<Limits>): Limits {
    if plans == [] then Nothing() else Plus(Total(plans[..|plans| - 1]), plans[|plans| - 1])
  }

  // ----------------------------------------------------------------- the exact sum

  /** The sum in unbounded integers; nothing if any summand is unlimited. */
  function Exact(plans: seq<Limits>, f: Field): Option<nat> {
    if plans == [] then Some(0)
    else
      var init, last := Exact(plans[..|plans| - 1], f), Get(plans[|plans| - 1], f);
      if init.Some? && last.Some? then Some(init.value + last.value) else None
  }

  lemma PlusAt(a: Limits, b: Limits, f: Field)
    ensures Get(Plus(a, b), f) == Add(Get(a, f), Get(b, f))
  {
  }

  /** Saturating at every step is the same as saturating the exact sum once. */
  lemma {:induction false} TotalIsExact(plans: seq<Limits>, f: Field)
    ensures var exact := Exact(plans, f);
            Get(Total(plans), f) == if exact.Some? then Some(Saturated(exact.value)) else None
    decreases |plans|
  {
    if plans != [] {
      TotalIsExact(plans[..|plans| - 1], f);
      PlusAt(Total(plans[..|plans| - 1]), plans[|plans| - 1], f);
    }
  }

  lemma {:induction false} CheckIs(l: Limits, ceiling: Limits, fields: seq<Field>)
    ensures var r := Check(l, ceiling, fields);
            && (r.Ok? <==> forall i :: 0 <= i < |fields| ==> Fits(Get(l, fields[i]), Get(ceiling, fields[i])))
            && (r.Err? ==> exists i :: 0 <= i < |fields| && FirstAt(l, ceiling, fields, i)
                             && r.error == Exceeded(fields[i], Get(l, fields[i]), Get(ceiling, fields[i])))
    decreases |fields|
  {
    if fields != [] {
      CheckIs(l, ceiling, fields[1..]);
      if !Fits(Get(l, fields[0]), Get(ceiling, fields[0])) {
        assert FirstAt(l, ceiling, fields, 0);
      } else if Check(l, ceiling, fields[1..]).Err? {
        var i :| 0 <= i < |fields| - 1 && FirstAt(l, ceiling, fields[1..], i);
        assert FirstAt(l, ceiling, fields, i + 1);
      }
    }
  }

  /** The field at `i` does not fit, and every earlier one does. */
  predicate FirstAt(l: Limits, ceiling: Limits, fields: seq<Field>, i: nat)
    requires i < |fields|
  {
    && !Fits(Get(l, fields[i]), Get(ceiling, fields[i]))
    && forall j :: 0 <= j < i ==> Fits(Get(l, fields[j]), Get(ceiling, fields[j]))
  }

  lemma EveryField(f: Field)
    ensures exists i :: 0 <= i < |ORDER| && ORDER[i] == f
  {
    assert ORDER[0].Disk? && ORDER[1].Inodes? && ORDER[2].Bandwidth? && ORDER[3].Sites?;
    assert ORDER[4].Databases? && ORDER[5].Mailboxes? && ORDER[6].CronJobs? && ORDER[7].NodeApps?;
    assert ORDER[8].PhpWorkers? && ORDER[9].Memory? && ORDER[10].Cpu? && ORDER[11].BackupQuota?;
  }

  /** No field is missed, and a refusal names the first field that does not fit. */
  lemma FitsWithinIsEveryField(l: Limits, ceiling: Limits)
    ensures var r := FitsWithin(l, ceiling);
            && (r.Ok? <==> forall f :: Fits(Get(l, f), Get(ceiling, f)))
            && (r.Err? ==> exists i :: 0 <= i < |ORDER| && FirstAt(l, ceiling, ORDER, i)
                             && r.error == Exceeded(ORDER[i], Get(l, ORDER[i]), Get(ceiling, ORDER[i])))
  {
    CheckIs(l, ceiling, ORDER);
    if FitsWithin(l, ceiling).Ok? {
      forall f
        ensures Fits(Get(l, f), Get(ceiling, f))
      {
        EveryField(f);
      }
    }
  }

  /** The order in which a reseller is told of what is exceeded. */
  function Rank(f: Field): nat {
    match f
    case Disk => 0
    case Inodes => 1
    case Bandwidth => 2
    case Sites => 3
    case Databases => 4
    case Mailboxes => 5
    case CronJobs => 6
    case NodeApps => 7
    case PhpWorkers => 8
    case Memory => 9
    case Cpu => 10
    case BackupQuota => 11
  }

  lemma RankIsPosition(i: nat)
    requires i < |ORDER|
    ensures Rank(ORDER[i]) == i
  {
  }

  /** A refusal names the field that comes first among all that do not fit, with both its numbers. */
  lemma RefusalNamesTheFirst(l: Limits, ceiling: Limits)
    requires FitsWithin(l, ceiling).Err?
    ensures var e := FitsWithin(l, ceiling).error;
            && !Fits(Get(l, e.field), Get(ceiling, e.field))
            && e.requested == Get(l, e.field) && e.available == Get(ceiling, e.field)
            && forall f :: !Fits(Get(l, f), Get(ceiling, f)) ==> Rank(e.field) <= Rank(f)
  {
    FitsWithinIsEveryField(l, ceiling);
    var i :| 0 <= i < |ORDER| && FirstAt(l, ceiling, ORDER, i)
             && FitsWithin(l, ceiling).error == Exceeded(ORDER[i], Get(l, ORDER[i]), Get(ceiling, ORDER[i]));
    RankIsPosition(i);
    forall f | !Fits(Get(l, f), Get(ceiling, f))
      ensures i <= Rank(f)
    {
      EveryField(f);
      var j :| 0 <= j < |ORDER| && ORDER[j] == f;
      RankIsPosition(j);
    }
  }

  /** The exact sum is within the ceiling. */
  predicate Within(exact: Option<nat>, ceiling: Limit) {
    ceiling.None? || (exact.Some? && exact.value <= ceiling.value)
  }

  /** What the code accepts: at the largest ceiling, any finite sum. */
  predicate Accepts(exact: Option<nat>, ceiling: Limit) {
    Within(exact, ceiling) || (exact.Some? && ceiling == Some(U64_MAX))
  }

  /**
   An assignment is accepted exactly when, in every field, the exact sum of everything
   provisioned and the new plan is within the ceiling, or is finite and the ceiling is the
   largest number there is.
   */
  lemma AcceptedExactlyWhen(plans: seq<Limits>, candidate: Limits, ceiling: Limits)
    ensures AssignmentFits(Total(plans), candidate, ceiling).Ok?
            <==> forall f :: Accepts(Exact(plans + [candidate], f), Get(ceiling, f))
  {
    var all := plans + [candidate];
    assert all[..|all| - 1] == plans;
    assert Total(all) == Plus(Total(plans), candidate);
    FitsWithinIsEveryField(Total(all), ceiling);
    forall f
      ensures Fits(Get(Total(all), f), Get(ceiling, f)) <==> Accepts(Exact(all, f), Get(ceiling, f))
    {
      TotalIsExact(all, f);
    }
  }

  // ----------------------------------------------------------------- runs of assignments

  /** Each request is provisioned if it fits what is used so far, and refused otherwise. */
  function Provisioned(requests: seq<Limits>, ceiling: Limits): seq<Limits> {
    if requests == [] then []
    else
      var held := Provisioned(requests[..|requests| - 1], ceiling);
      var candidate := requests[|requests| - 1];
      if AssignmentFits(Total(held), candidate, ceiling).Ok? then held + [candidate] else held
  }

  lemma {:induction false} ProvisionedIsAccepted(requests: seq<Limits>, ceiling: Limits, f: Field)
    ensures Accepts(Exact(Provisioned(requests, ceiling), f), Get(ceiling, f))
    decreases |requests|
  {
    if requests != [] {
      var before := requests[..|requests| - 1];
      ProvisionedIsAccepted(before, ceiling, f);
      AcceptedExactlyWhen(Provisioned(before, ceiling), requests[|requests| - 1], ceiling);
    }
  }

  /** Over every run of assignments the exact sum stays within this ceiling. */
  ghost predicate AlwaysWithin(ceiling: Limits, f: Field) {
    forall requests :: Within(Exact(Provisioned(requests, ceiling), f), Get(ceiling, f))
  }

  /**
   Over every sequence of assignments the exact, unbounded sum of everything provisioned
   stays within the ceiling of a field exactly when that ceiling is not the largest number
   there is.
   */
  lemma StaysWithinExactlyWhen(ceiling: Limits, f: Field)
    ensures AlwaysWithin(ceiling, f) <==> Get(ceiling, f) != Some(U64_MAX)
  {
    if Get(ceiling, f) != Some(U64_MAX) {
      forall requests
        ensures Within(Exact(Provisioned(requests, ceiling), f), Get(ceiling, f))
      {
        ProvisionedIsAccepted(requests, ceiling, f);
      }
    } else {
      TwiceTheLargest(ceiling, f);
    }
  }

  function Lone(x: U64, f: Field, g: Field): Limit {
    Some(if f == g then x else 0)
  }

  /** A plan of size `x` in one field and of size zero in all others. */
  function Only(x: U64, f: Field): Limits {
    Limits(Lone(x, f, Disk), Lone(x, f, Inodes), Lone(x, f, Bandwidth), Lone(x, f, Sites),
           Lone(x, f, Databases), Lone(x, f, Mailboxes), Lone(x, f, CronJobs), Lone(x, f, NodeApps),
           Lone(x, f, PhpWorkers), Lone(x, f, Memory), Lone(x, f, Cpu), Lone(x, f, BackupQuota))
  }

  lemma OnlyAt(x: U64, f: Field, g: Field)
    ensures Get(Only(x, f), g) == Some(if f == g then x else 0)
  {
  }

  lemma ExactSnoc(plans: seq<Limits>, plan: Limits, f: Field)
    ensures Exact(plans + [plan], f)
            == if Exact(plans, f).Some? && Get(plan, f).Some? then Some(Exact(plans, f).value + Get(plan, f).value) else None
  {
    assert (plans + [plan])[..|plans|] == plans;
  }

  /** This much is held of one field, and nothing of the others. */
  predicate HoldsOnly(held: seq<Limits>, n: nat, f: Field) {
    forall g :: Exact(held, g) == Some(if f == g then n else 0)
  }

  lemma OneMoreOfTheField(held: seq<Limits>, n: nat, f: Field)
    requires HoldsOnly(held, n, f)
    ensures HoldsOnly(held + [Only(U64_MAX, f)], n + U64_MAX, f)
  {
    forall g
      ensures Exact(held + [Only(U64_MAX, f)], g) == Some(if f == g then n + U64_MAX else 0)
    {
      OnlyAt(U64_MAX, f, g);
      ExactSnoc(held, Only(U64_MAX, f), g);
    }
  }

  /** Under the largest ceiling a plan of the largest size is accepted whatever finite sum is held. */
  lemma LargestIsAccepted(held: seq<Limits>, n: nat, ceiling: Limits, f: Field)
    requires Get(ceiling, f) == Some(U64_MAX) && HoldsOnly(held, n, f)
    ensures AssignmentFits(Total(held), Only(U64_MAX, f), ceiling).Ok?
  {
    var all := held + [Only(U64_MAX, f)];
    OneMoreOfTheField(held, n, f);
    forall g
      ensures Accepts(Exact(all, g), Get(ceiling, g))
    {
      assert Exact(all, g) == Some(if f == g then n + U64_MAX else 0);
    }
    AcceptedExactlyWhen(held, Only(U64_MAX, f), ceiling);
  }

  lemma ProvisionedSnoc(requests: seq<Limits>, candidate: Limits, ceiling: Limits)
    ensures var held := Provisioned(requests, ceiling);
            Provisioned(requests + [candidate], ceiling)
            == if AssignmentFits(Total(held), candidate, ceiling).Ok? then held + [candidate] else held
  {
    assert (requests + [candidate])[..|requests|] == requests;
  }

  lemma OneMoreIsProvisioned(requests: seq<Limits>, n: nat, ceiling: Limits, f: Field) returns (more: seq<Limits>)
    requires Get(ceiling, f) == Some(U64_MAX) && HoldsOnly(Provisioned(requests, ceiling), n, f)
    ensures HoldsOnly(Provisioned(more, ceiling), n + U64_MAX, f)
  {
    var held := Provisioned(requests, ceiling);
    more := requests + [Only(U64_MAX, f)];
    LargestIsAccepted(held, n, ceiling, f);
    OneMoreOfTheField(held, n, f);
    ProvisionedSnoc(requests, Only(U64_MAX, f), ceiling);
  }

  lemma NothingProvisioned(ceiling: Limits, f: Field)
    ensures HoldsOnly(Provisioned([], ceiling), 0, f)
  {
  }

  lemma BeyondTheCeiling(requests: seq<Limits>, n: nat, ceiling: Limits, f: Field)
    requires Get(ceiling, f) == Some(U64_MAX) && HoldsOnly(Provisioned(requests, ceiling), n, f) && n > U64_MAX
    ensures !AlwaysWithin(ceiling, f)
  {
    assert !Within(Exact(Provisioned(requests, ceiling), f), Get(ceiling, f));
  }

  /** Two plans of the largest size are accepted under the largest ceiling. */
  lemma TwiceTheLargest(ceiling: Limits, f: Field)
    requires Get(ceiling, f) == Some(U64_MAX)
    ensures !AlwaysWithin(ceiling, f)
  {
    NothingProvisioned(ceiling, f);
    var one := OneMoreIsProvisioned([], 0, ceiling, f);
    var two := OneMoreIsProvisioned(one, U64_MAX, ceiling, f);
    BeyondTheCeiling(two, U64_MAX + U64_MAX, ceiling, f);
  }

  // ----------------------------------------------------------------- order and dropping

  predicate AtMost(a: Option<nat>, b: Option<nat>) {
    b.None? || (a.Some? && a.value <= b.value)
  }

  function Joined(a: Option<nat>, b: Option<nat>): Option<nat> {
    if a.Some? && b.Some? then Some(a.value + b.value) else None
  }

  lemma {:induction false} ExactJoins(x: seq<Limits>, y: seq<Limits>, f: Field)
    ensures Exact(x + y, f) == Joined(Exact(x, f), Exact(y, f))
    decreases |y|
  {
    if y == [] {
      assert x + y == x;
    } else {
      ExactJoins(x, y[..|y| - 1], f);
      assert (x + y)[..|x + y| - 1] == x + y[..|y| - 1];
    }
  }

  lemma ExactApart(x: seq<Limits>, plan: Limits, y: seq<Limits>, f: Field)
    ensures Exact(x + [plan] + y, f) == Joined(Exact(x + y, f), Exact([plan], f))
  {
    ExactJoins(x + [plan], y, f);
    ExactJoins(x, [plan], f);
    ExactJoins(x, y, f);
  }

  lemma TakeOne(init: seq<Limits>, last: Limits, x: seq<Limits>, y: seq<Limits>)
    requires multiset(init + [last]) <= multiset(x + [last] + y)
    ensures multiset(init) <= multiset(x + y)
  {
    assert multiset(init + [last]) == multiset(init) + multiset{last};
    assert multiset(x + [last] + y) == multiset(x + y) + multiset{last};
    forall p
      ensures multiset(init)[p] <= multiset(x + y)[p]
    {
      assert multiset(init + [last])[p] <= multiset(x + [last] + y)[p];
    }
  }

  lemma OneMoreOnBothSides(init: seq<Limits>, last: Limits, x: seq<Limits>, y: seq<Limits>, f: Field)
    requires AtMost(Exact(init, f), Exact(x + y, f))
    ensures AtMost(Exact(init + [last], f), Exact(x + [last] + y, f))
  {
    ExactApart(x, last, y, f);
    ExactJoins(init, [last], f);
  }

  lemma Position(plans: seq<Limits>, plan: Limits) returns (x: seq<Limits>, y: seq<Limits>)
    requires plan in multiset(plans)
    ensures plans == x + [plan] + y
  {
    var k :| 0 <= k < |plans| && plans[k] == plan;
    x, y := plans[..k], plans[k + 1..];
  }

  lemma {:induction false} FewerPlansSumToLess(few: seq<Limits>, many: seq<Limits>, f: Field)
    requires multiset(few) <= multiset(many)
    ensures AtMost(Exact(few, f), Exact(many, f))
    decreases |few|
  {
    if few != [] {
      var init, last := few[..|few| - 1], few[|few| - 1];
      assert few == init + [last];
      assert last in multiset(few);
      var x, y := Position(many, last);
      TakeOne(init, last, x, y);
      FewerPlansSumToLess(init, x + y, f);
      OneMoreOnBothSides(init, last, x, y, f);
    }
  }

  lemma SameLimits(a: Limits, b: Limits)
    requires forall f :: Get(a, f) == Get(b, f)
    ensures a == b
  {
    assert Get(a, Disk) == Get(b, Disk) && Get(a, Inodes) == Get(b, Inodes);
    assert Get(a, Bandwidth) == Get(b, Bandwidth) && Get(a, Sites) == Get(b, Sites);
    assert Get(a, Databases) == Get(b, Databases) && Get(a, Mailboxes) == Get(b, Mailboxes);
    assert Get(a, CronJobs) == Get(b, CronJobs) && Get(a, NodeApps) == Get(b, NodeApps);
    assert Get(a, PhpWorkers) == Get(b, PhpWorkers) && Get(a, Memory) == Get(b, Memory);
    assert Get(a, Cpu) == Get(b, Cpu) && Get(a, BackupQuota) == Get(b, BackupQuota);
  }

  /** The running total does not depend on the order of the assignments. */
  lemma TotalIgnoresOrder(plans: seq<Limits>, shuffled: seq<Limits>)
    requires multiset(plans) == multiset(shuffled)
    ensures Total(plans) == Total(shuffled)
  {
    forall f
      ensures Get(Total(plans), f) == Get(Total(shuffled), f)
    {
      FewerPlansSumToLess(plans, shuffled, f);
      FewerPlansSumToLess(shuffled, plans, f);
      TotalIsExact(plans, f);
      TotalIsExact(shuffled, f);
    }
    SameLimits(Total(plans), Total(shuffled));
  }

  /** Dropping plans keeps the rest fitting. */
  lemma DroppingKeepsFitting(plans: seq<Limits>, rest: seq<Limits>, ceiling: Limits)
    requires multiset(rest) <= multiset(plans)
    requires FitsWithin(Total(plans), ceiling).Ok?
    ensures FitsWithin(Total(rest), ceiling).Ok?
  {
    FitsWithinIsEveryField(Total(plans), ceiling);
    FitsWithinIsEveryField(Total(rest), ceiling);
    forall f
      ensures Fits(Get(Total(rest), f), Get(ceiling, f))
    {
      assert Fits(Get(Total(plans), f), Get(ceiling, f));
      FewerPlansSumToLess(rest, plans, f);
      TotalIsExact(rest, f);
      TotalIsExact(plans, f);
    }
  }
}
