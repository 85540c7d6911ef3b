/**
 Allow/reject rules: the controller's pre-sort, the node's sort, direction filter and first match,
 and the diagnostic simulator IpRouteTest, all against one reference decision.
 */
module RouteRule {
  import opened Wrappers
  import opened IPUtil
  import D = Cidr

  datatype Strategy = Allow | Reject

  datatype Direction = All | Input | Output

  datatype RulePredicate = Exact(ipv4: string) | Range(start: int, end: int) | Block(cidr: D.Cidr)

  datatype RuleConfig = RuleConfig(
    name: string,
    strategy: Strategy,
    direction: Direction,
    level: int,
    predicates: seq<RulePredicate>)

  /** A rule whose texts parsed. */
  type Rule = r: RuleConfig | ValidRule(r) witness RuleConfig("", Reject, All, 0, [])

  predicate ValidRule(r: RuleConfig) {
    forall i :: 0 <= i < |r.predicates| && r.predicates[i].Block? ==> D.Valid(r.predicates[i].cidr)
  }

  predicate TestPredicate(p: RulePredicate, ip: string)
    requires IsIp(ip) && (p.Block? ==> D.Valid(p.cidr))
  {
    match p
    case Exact(ipv4) => ip == ipv4
    case Range(start, end) => start <= Ip2Long(ip) <= end
    case Block(cidr) => D.Contains(cidr, ip)
  }

  /** RouteRulePredicateChain.test: some predicate accepts the address. */
  predicate TestRule(r: Rule, ip: string)
    requires IsIp(ip)
  {
    exists i :: 0 <= i < |r.predicates| && TestPredicate(r.predicates[i], ip)
  }

  predicate Applies(r: Rule, direction: Direction) {
    r.direction == All || r.direction == direction
  }

  predicate Matches(r: Rule, direction: Direction, ip: string)
    requires IsIp(ip)
  {
    (r.direction.All? || r.direction == direction) && TestRule(r, ip)
  }

  /** A predicate names just this text, or a range of numbers or a block of leading bits the address lies in. */
  ghost predicate Accepts(p: RulePredicate, ip: string)
    requires IsIp(ip) && (p.Block? ==> D.Valid(p.cidr))
  {
    var n := Ip2Long(ip);
    match p
    case Exact(text) => text == ip
    case Range(start, end) => start <= n && n <= end
    case Block(c) => D.Shr(n, 32 - c.maskBits) == D.Shr(Ip2Long(c.networkIdentifier), 32 - c.maskBits)
  }

  lemma PredicateIff(p: RulePredicate, ip: string)
    requires IsIp(ip) && (p.Block? ==> D.Valid(p.cidr))
    ensures TestPredicate(p, ip) <==> Accepts(p, ip)
  {
    hide IsIp, Ip2Long, D.Contains, D.Shr, D.Valid;
    if p.Block? {
      D.ContainsIsPrefixEquality(p.cidr, ip);
    }
  }

  /** One accepting predicate makes a rule accept. */
  lemma TestRuleIff(r: Rule, ip: string)
    requires IsIp(ip)
    ensures TestRule(r, ip) <==> exists p :: p in r.predicates && Accepts(p, ip)
  {
    hide IsIp, Accepts, TestPredicate;
    forall i | 0 <= i < |r.predicates|
      ensures TestPredicate(r.predicates[i], ip) <==> Accepts(r.predicates[i], ip)
    {
      PredicateIff(r.predicates[i], ip);
    }
  }

  // ----- List.sort and Stream.sorted are stable -----

  ghost predicate Sorted(rules: seq<Rule>) {
    forall i, j :: 0 <= i < j < |rules| ==> rules[i].level <= rules[j].level
  }

  function AtLevel(rules: seq<Rule>, level: int): seq<Rule> {
    if rules == [] then []
    else if rules[0].level == level then [rules[0]] + AtLevel(rules[1..], level)
    else AtLevel(rules[1..], level)
  }

  /** Ascending levels, and rules of one level in their given order. */
  ghost predicate StableSortOf(sorted: seq<Rule>, rules: seq<Rule>) {
    Sorted(sorted) && forall level :: AtLevel(sorted, level) == AtLevel(rules, level)
  }

  function InsertSorted(r: Rule, rules: seq<Rule>): seq<Rule> {
    if rules == [] || r.level <= rules[0].level then [r] + rules
    else [rules[0]] + InsertSorted(r, rules[1..])
  }

  function StableSort(rules: seq<Rule>): seq<Rule> {
    if rules == [] then [] else InsertSorted(rules[0], StableSort(rules[1..]))
  }

  lemma {:induction false} InsertSortedOrder(r: Rule, rules: seq<Rule>)
    requires Sorted(rules)
    ensures Sorted(InsertSorted(r, rules))
    ensures forall i :: 0 <= i < |InsertSorted(r, rules)| ==>
      InsertSorted(r, rules)[i].level >= r.level || (rules != [] && InsertSorted(r, rules)[i].level >= rules[0].level)
  {
    if !(rules == [] || r.level <= rules[0].level) {
      InsertSortedOrder(r, rules[1..]);
    }
  }

  lemma {:induction false} InsertSortedStable(r: Rule, rules: seq<Rule>, level: int)
    requires Sorted(rules)
    ensures AtLevel(InsertSorted(r, rules), level) == AtLevel([r] + rules, level)
  {
    AtLevelCons(r, rules, level);
    if !(rules == [] || r.level <= rules[0].level) {
      InsertSortedStable(r, rules[1..], level);
      AtLevelCons(rules[0], InsertSorted(r, rules[1..]), level);
      AtLevelCons(r, rules[1..], level);
    }
  }

  lemma AtLevelCons(r: Rule, rules: seq<Rule>, level: int)
    ensures AtLevel([r] + rules, level)
         == if r.level == level then [r] + AtLevel(rules, level) else AtLevel(rules, level)
  {
    assert ([r] + rules)[1..] == rules;
  }

  lemma {:induction false} StableSortIsStable(rules: seq<Rule>)
    ensures StableSortOf(StableSort(rules), rules)
  {
    if rules != [] {
      StableSortIsStable(rules[1..]);
      forall level ensures AtLevel(StableSort(rules), level) == AtLevel(rules, level) {
        InsertSortedStable(rules[0], StableSort(rules[1..]), level);
        AtLevelCons(rules[0], StableSort(rules[1..]), level);
      }
      InsertSortedOrder(rules[0], StableSort(rules[1..]));
    }
  }

  lemma {:induction false} LevelsPresent(rules: seq<Rule>, level: int)
    ensures (exists i :: 0 <= i < |rules| && rules[i].level == level) <==> AtLevel(rules, level) != []
  {
    if rules != [] {
      LevelsPresent(rules[1..], level);
      if i :| 0 <= i < |rules| && rules[i].level == level {
        assert i > 0 ==> rules[1..][i - 1].level == level;
      }
    }
  }

  lemma SameLevelsNonempty(a: seq<Rule>, b: seq<Rule>)
    requires forall level :: AtLevel(a, level) == AtLevel(b, level)
    ensures a != [] ==> b != []
  {
    if a != [] {
      var level := a[0].level;
      assert AtLevel(b, level) == AtLevel(a, level) != [];
    }
  }

  /** A stable sort has one result, so the particular library algorithm does not matter. */
  lemma {:induction false} StableSortUnique(a: seq<Rule>, b: seq<Rule>)
    requires Sorted(a) && Sorted(b) && forall level :: AtLevel(a, level) == AtLevel(b, level)
    ensures a == b
    decreases |a| + |b|
  {
    SameLevelsNonempty(a, b);
    SameLevelsNonempty(b, a);
    if a == [] {
    } else {
      LevelsPresent(a, b[0].level);
      LevelsPresent(b, a[0].level);
      assert AtLevel(a, a[0].level)[0] == a[0] && AtLevel(b, b[0].level)[0] == b[0];
      forall level ensures AtLevel(a[1..], level) == AtLevel(b[1..], level) {
        assert AtLevel(a, level) == AtLevel(b, level);
        if a[0].level == level {
          assert AtLevel(a, level) == [a[0]] + AtLevel(a[1..], level);
          assert AtLevel(b, level) == [b[0]] + AtLevel(b[1..], level);
          assert AtLevel(a, level)[1..] == AtLevel(a[1..], level);
        }
      }
      StableSortUnique(a[1..], b[1..]);
      assert a == [a[0]] + a[1..] && b == [b[0]] + b[1..];
    }
  }

  // ----- the live pipeline -----

  function FilterDirection(rules: seq<Rule>, direction: Direction): seq<Rule> {
    if rules == [] then []
    else if Applies(rules[0], direction) then [rules[0]] + FilterDirection(rules[1..], direction)
    else FilterDirection(rules[1..], direction)
  }

  /** RouteRulePredicateProcessor.test: the first rule that accepts the address decides. */
  function Process(rules: seq<Rule>, ip: string): bool
    requires IsIp(ip)
  {
    if rules == [] then false
    else if TestRule(rules[0], ip) then rules[0].strategy == Allow
    else Process(rules[1..], ip)
  }

  /** What the node installs for one direction from the list the controller sends. */
  function Installed(rules: seq<Rule>, direction: Direction): seq<Rule> {
    FilterDirection(StableSort(StableSort(rules)), direction)
  }

  // ----- the diagnostic simulator -----

  class IpRouteTest {
    var logStatus: seq<bool>
    var finish: bool
    var pass: bool

    constructor ()
      ensures logStatus == [] && !finish && pass
    {
      logStatus, finish, pass := [], false, true;
    }

    /** One log line with the verdict; a rejection finishes the simulation without a pass. */
    method TestRules(rules: seq<Rule>, direction: Direction, ip: string)
      requires IsIp(ip) && direction != All
      modifies this
      ensures var allowed := Allowed(rules, direction, ip);
        && logStatus == old(logStatus) + [allowed]
        && finish == (old(finish) || !allowed)
        && pass == (old(pass) && allowed)
    {
      var predicateList := StableSort(rules);
      StableSortIsStable(rules);
      SortedDecides(predicateList, rules, direction, ip);
      var n := 0;
      while n < |predicateList|
        invariant 0 <= n <= |predicateList|
        invariant FirstOf(predicateList, direction, ip) == FirstOf(predicateList[n..], direction, ip)
        invariant unchanged(this)
      {
        var rule := predicateList[n];
        assert predicateList[n..][1..] == predicateList[n + 1..];
        n := n + 1;
        if !Applies(rule, direction) {
          continue;
        }
        if TestRule(rule, ip) {
          if rule.strategy == Allow {
            logStatus := logStatus + [true];
          } else {
            logStatus := logStatus + [false];
            finish, pass := true, false;
          }
          return;
        }
      }
      logStatus := logStatus + [false];
      finish, pass := true, false;
    }
  }

  // ----- the reference decision -----

  /** Rule i matches and no matching rule has a lower level, or the same level and an earlier place. */
  ghost predicate Decisive(rules: seq<Rule>, direction: Direction, ip: string, i: int)
    requires IsIp(ip)
  {
    && 0 <= i < |rules| && Matches(rules[i], direction, ip)
    && forall j :: 0 <= j < |rules| && Matches(rules[j], direction, ip) ==>
         rules[i].level < rules[j].level || (rules[i].level == rules[j].level && i <= j)
  }

  /** The earliest lowest-level matching rule exists and allows. */
  ghost predicate Allowed(rules: seq<Rule>, direction: Direction, ip: string)
    requires IsIp(ip)
  {
    exists i :: Decisive(rules, direction, ip, i) && rules[i].strategy == Allow
  }

  function FirstOf(rules: seq<Rule>, direction: Direction, ip: string): Option<Rule>
    requires IsIp(ip)
  {
    if rules == [] then None
    else if Matches(rules[0], direction, ip) then Some(rules[0])
    else FirstOf(rules[1..], direction, ip)
  }

  lemma FirstOfCons(r: Rule, rules: seq<Rule>, direction: Direction, ip: string)
    requires IsIp(ip)
    ensures FirstOf([r] + rules, direction, ip)
         == if Matches(r, direction, ip) then Some(r) else FirstOf(rules, direction, ip)
  {
    assert ([r] + rules)[1..] == rules;
  }

  /** In a sorted list the first match is the first match of its level, and lower levels have none. */
  lemma {:induction false} FirstOfSorted(rules: seq<Rule>, direction: Direction, ip: string, level: int)
    requires IsIp(ip) && Sorted(rules)
    ensures var first, here := FirstOf(rules, direction, ip), FirstOf(AtLevel(rules, level), direction, ip);
      && (first.None? || level < first.value.level ==> here == None)
      && (first.Some? && first.value.level == level ==> here == first)
  {
    hide Matches, IsIp;
    if rules != [] {
      FirstOfSorted(rules[1..], direction, ip, level);
      FirstOfCons(rules[0], AtLevel(rules[1..], level), direction, ip);
      if level < rules[0].level {
        LevelsPresent(rules, level);
      }
    }
  }

  /** The first match of a level is its earliest rule that matches. */
  lemma {:induction false} FirstOfLevel(rules: seq<Rule>, direction: Direction, ip: string, level: int) returns (i: nat)
    requires IsIp(ip)
    ensures i <= |rules|
    ensures forall j :: 0 <= j < i ==> !(rules[j].level == level && Matches(rules[j], direction, ip))
    ensures var here := FirstOf(AtLevel(rules, level), direction, ip);
      if i == |rules| then here == None
      else rules[i].level == level && Matches(rules[i], direction, ip) && here == Some(rules[i])
  {
    hide Matches, IsIp;
    i := 0;
    if rules != [] {
      FirstOfCons(rules[0], AtLevel(rules[1..], level), direction, ip);
      if !(rules[0].level == level && Matches(rules[0], direction, ip)) {
        i := FirstOfLevel(rules[1..], direction, ip, level);
        i := i + 1;
      }
    }
  }

  /** The first match of any stable sort is the reference decision. */
  lemma SortedDecides(sorted: seq<Rule>, rules: seq<Rule>, direction: Direction, ip: string)
    requires IsIp(ip) && StableSortOf(sorted, rules)
    ensures var first := FirstOf(sorted, direction, ip);
      Allowed(rules, direction, ip) <==> first.Some? && first.value.strategy == Allow
  {
    hide TestRule, Matches, IsIp;
    var first := FirstOf(sorted, direction, ip);
    forall j | 0 <= j < |rules| && Matches(rules[j], direction, ip)
      ensures first.Some? && first.value.level <= rules[j].level
    {
      FirstOfSorted(sorted, direction, ip, rules[j].level);
      var i := FirstOfLevel(rules, direction, ip, rules[j].level);
      assert i <= j;
    }
    if first.Some? {
      var level := first.value.level;
      FirstOfSorted(sorted, direction, ip, level);
      var i := FirstOfLevel(rules, direction, ip, level);
      assert Decisive(rules, direction, ip, i) && rules[i] == first.value;
    }
  }

  lemma {:induction false} ProcessIsFirstOf(rules: seq<Rule>, direction: Direction, ip: string)
    requires IsIp(ip)
    ensures var first := FirstOf(rules, direction, ip);
      Process(FilterDirection(rules, direction), ip) <==> first.Some? && first.value.strategy == Allow
  {
    hide TestRule, IsIp;
    if rules != [] {
      ProcessIsFirstOf(rules[1..], direction, ip);
      var rest := FilterDirection(rules[1..], direction);
      assert ([rules[0]] + rest)[1..] == rest;
    }
  }

  /** Pre-sort, sort, filter and first match decide as the reference does; IpRouteTest.TestRules
      states the same of the simulator. Neither the second sort nor filtering after sorting matters. */
  lemma LivePipelineDecides(rules: seq<Rule>, direction: Direction, ip: string)
    requires IsIp(ip)
    ensures Process(Installed(rules, direction), ip) <==> Allowed(rules, direction, ip)
    ensures StableSort(StableSort(rules)) == StableSort(rules)
  {
    hide IsIp, TestRule;
    var once := StableSort(rules);
    StableSortIsStable(rules);
    StableSortIsStable(once);
    StableSortUnique(StableSort(once), once);
    SortedDecides(once, rules, direction, ip);
    ProcessIsFirstOf(once, direction, ip);
  }
}
