/** The proxy's access decision: rules by priority, first match, and the request counters. */
module Acl {
  import opened Results
  import opened GoStrings
  import opened Strconv
  import opened Bytes

  datatype ACLRule = ACLRule(id: string, path: string, method_: string, sourceIP: string, userGroup: string,
                             action: string, priority: int, enabled: bool)

  datatype User = User(username: string, permissions: seq<string>)

  datatype AccessRequest = AccessRequest(clientIP: string, username: string, path: string, method_: string)

  datatype AuthStats = AuthStats(total: uint64, allowed: uint64, denied: uint64)

  /** The access manager as a value. */
  datatype Auth = Auth(users: map<string, User>, rules: seq<ACLRule>, authRequired: bool, defaultAllow: bool,
                       stats: AuthStats)

  // ---------------------------------------------------------------------------
  // Matching
  // ---------------------------------------------------------------------------

  predicate PartsMatch(rule: seq<string>, client: seq<string>) {
    |rule| == |client| && forall i :: 0 <= i < |rule| ==> rule[i] == "*" || rule[i] == client[i]
  }

  /** matchIP, in the order of its tests. */
  predicate MatchIP(ruleIP: string, clientIP: string) {
    if ruleIP == "*" || ruleIP == clientIP then true
    else if '*' in ruleIP then PartsMatch(Split(ruleIP, '.'), Split(clientIP, '.'))
    else false
  }

  predicate MatchRule(users: map<string, User>, rule: ACLRule, r: AccessRequest) {
    && (rule.path == "" || HasPrefix(r.path, rule.path))
    && (rule.method_ == "" || rule.method_ == r.method_)
    && (rule.sourceIP == "" || MatchIP(rule.sourceIP, r.clientIP))
    && (rule.userGroup == "" || (r.username in users && rule.userGroup in users[r.username].permissions))
  }

  /** The rule applies: it is switched on and matches. */
  predicate Applies(users: map<string, User>, rule: ACLRule, r: AccessRequest) {
    rule.enabled && MatchRule(users, rule, r)
  }

  lemma EqualParts(a: seq<string>, b: seq<string>)
    requires |a| == |b| && forall i :: 0 <= i < |a| ==> a[i] == b[i]
    ensures a == b
  {
  }

  /** A rule address is a pattern: the lone star, or dot-separated parts of which each is a star or equal. */
  lemma MatchIPIsPattern(ruleIP: string, clientIP: string)
    ensures MatchIP(ruleIP, clientIP) <==> ruleIP == "*" || PartsMatch(Split(ruleIP, '.'), Split(clientIP, '.'))
  {
    var (rule, client) := (Split(ruleIP, '.'), Split(clientIP, '.'));
    hide Split;
    if '*' !in ruleIP {
      forall i | 0 <= i < |rule| ensures rule[i] != "*" {
        PartChars(ruleIP, '.', i);
        assert '*' in "*";
      }
      if PartsMatch(rule, client) {
        EqualParts(rule, client);
        SplitSound(ruleIP, '.');
        SplitSound(clientIP, '.');
      }
    }
  }

  /** Over addresses written as dot-separated parts: the stars stand for one part each, and only in the rule. */
  lemma PatternOfParts(rule: seq<string>, client: seq<string>)
    requires rule != [] && client != []
    requires (forall p :: p in rule ==> '.' !in p) && forall p :: p in client ==> '.' !in p
    ensures MatchIP(Join(rule, '.'), Join(client, '.')) <==>
            rule == ["*"] || (|rule| == |client| && forall i :: 0 <= i < |rule| ==> rule[i] in ["*", client[i]])
  {
    hide MatchIP, Split, Join;
    MatchIPIsPattern(Join(rule, '.'), Join(client, '.'));
    SplitJoin(rule, '.');
    SplitJoin(client, '.');
    SplitNone("*", '.');
    SplitSound("*", '.');
    if Join(rule, '.') == "*" {
      assert rule == ["*"];
    }
    if rule == ["*"] {
      LoneStar();
    }
  }

  lemma LoneStar()
    ensures Join(["*"], '.') == "*"
  {
  }

  /**
   What each condition of a rule asks for when it is the only one: a path that goes on from the rule's, the same
   method, an address that fits the pattern, and a known user who holds the group. An empty condition asks nothing.
   */
  lemma EachCondition(users: map<string, User>, rule: ACLRule, r: AccessRequest)
    ensures MatchRule(users, rule.(method_ := "", sourceIP := "", userGroup := ""), r) <==>
            exists rest: string :: r.path == rule.path + rest
    ensures MatchRule(users, rule.(path := "", sourceIP := "", userGroup := ""), r) <==> rule.method_ in ["", r.method_]
    ensures MatchRule(users, rule.(path := "", method_ := "", userGroup := ""), r) <==>
            rule.sourceIP in ["", "*"] || PartsMatch(Split(rule.sourceIP, '.'), Split(r.clientIP, '.'))
    ensures MatchRule(users, rule.(path := "", method_ := "", sourceIP := ""), r) <==>
            || rule.userGroup == ""
            || exists u :: u in users.Items && u.0 == r.username && rule.userGroup in u.1.permissions
  {
    hide MatchIP, PartsMatch, Split;
    MatchIPIsPattern(rule.sourceIP, r.clientIP);
    if HasPrefix(r.path, rule.path) {
      assert r.path == rule.path + r.path[|rule.path|..];
    }
    if r.username in users {
      assert (r.username, users[r.username]) in users.Items;
    }
  }

  /** A rule matches exactly the requests that each of its conditions alone would match. */
  lemma AllConditions(users: map<string, User>, rule: ACLRule, r: AccessRequest)
    ensures MatchRule(users, rule, r) <==>
            && MatchRule(users, rule.(method_ := "", sourceIP := "", userGroup := ""), r)
            && MatchRule(users, rule.(path := "", sourceIP := "", userGroup := ""), r)
            && MatchRule(users, rule.(path := "", method_ := "", userGroup := ""), r)
            && MatchRule(users, rule.(path := "", method_ := "", sourceIP := ""), r)
  {
    hide MatchIP, HasPrefix;
  }

  // ---------------------------------------------------------------------------
  // Sorting
  // ---------------------------------------------------------------------------

  function Swapped(s: seq<ACLRule>, i: nat, j: nat): (t: seq<ACLRule>)
    requires i < |s| && j < |s|
    ensures |t| == |s|
  {
    s[i := s[j]][j := s[i]]
  }

  /** The two nested loops of the exchange sort, from the pair (i, j) on. */
  function SortFrom(s: seq<ACLRule>, i: nat, j: nat): (t: seq<ACLRule>)
    ensures |t| == |s|
    decreases |s| - i, |s| - j
  {
    if i + 1 >= |s| then s
    else if j >= |s| then SortFrom(s, i + 1, i + 2)
    else if i < j && s[i].priority < s[j].priority then SortFrom(Swapped(s, i, j), i, j + 1)
    else SortFrom(s, i, j + 1)
  }

  function Sorted(rules: seq<ACLRule>): seq<ACLRule> {
    SortFrom(rules, 0, 1)
  }

  /** The first `i` rules are in their places, and rule `i` is not below any up to `j`. */
  ghost predicate Placed(s: seq<ACLRule>, i: nat, j: nat) {
    && (forall a, b :: 0 <= a < i && a < b < |s| ==> s[a].priority >= s[b].priority)
    && (forall b :: i < b < j && b < |s| ==> s[i].priority >= s[b].priority)
  }

  ghost predicate NonIncreasing(s: seq<ACLRule>) {
    forall a, b :: 0 <= a < b < |s| ==> s[a].priority >= s[b].priority
  }

  lemma SwapKeeps(s: seq<ACLRule>, i: nat, j: nat)
    requires i < j < |s| && Placed(s, i, j) && s[i].priority < s[j].priority
    ensures Placed(Swapped(s, i, j), i, j + 1)
    ensures multiset(Swapped(s, i, j)) == multiset(s)
  {
  }

  lemma SkipKeeps(s: seq<ACLRule>, i: nat, j: nat)
    requires i < j < |s| && Placed(s, i, j) && s[i].priority >= s[j].priority
    ensures Placed(s, i, j + 1)
  {
  }

  lemma RowDone(s: seq<ACLRule>, i: nat, j: nat)
    requires i + 1 < |s| <= j && Placed(s, i, j)
    ensures Placed(s, i + 1, i + 2)
  {
  }

  lemma AllPlaced(s: seq<ACLRule>, i: nat, j: nat)
    requires |s| <= i + 1 && Placed(s, i, j)
    ensures NonIncreasing(s)
  {
  }

  lemma {:induction false} SortFromSorts(s: seq<ACLRule>, i: nat, j: nat)
    requires i < j && Placed(s, i, j)
    ensures NonIncreasing(SortFrom(s, i, j)) && multiset(SortFrom(s, i, j)) == multiset(s)
    decreases |s| - i, |s| - j
  {
    hide Placed, Swapped, NonIncreasing;
    if i + 1 >= |s| {
      AllPlaced(s, i, j);
    } else if j >= |s| {
      RowDone(s, i, j);
      SortFromSorts(s, i + 1, i + 2);
    } else if s[i].priority < s[j].priority {
      SwapKeeps(s, i, j);
      SortFromSorts(Swapped(s, i, j), i, j + 1);
    } else {
      SkipKeeps(s, i, j);
      SortFromSorts(s, i, j + 1);
    }
  }

  /** The exchange sort puts the rules in non-increasing priority and loses or invents none. */
  lemma SortedIsSorted(rules: seq<ACLRule>)
    ensures NonIncreasing(Sorted(rules)) && multiset(Sorted(rules)) == multiset(rules)
  {
    SortFromSorts(rules, 0, 1);
  }

  // ---------------------------------------------------------------------------
  // The decision
  // ---------------------------------------------------------------------------

  function FirstApplying(users: map<string, User>, rules: seq<ACLRule>, r: AccessRequest): Option<ACLRule> {
    if rules == [] then None
    else if Applies(users, rules[0], r) then Some(rules[0])
    else FirstApplying(users, rules[1..], r)
  }

  /** The outcome of CheckAccess. */
  function Decision(am: Auth, r: AccessRequest): bool {
    if !am.authRequired && am.defaultAllow then true
    else if am.authRequired && r.username == "" then false
    else
      match FirstApplying(am.users, Sorted(am.rules), r)
      case Some(rule) => rule.action == "allow"
      case None => am.defaultAllow
  }

  function Count(stats: AuthStats, allowed: bool): AuthStats {
    var total: uint64 := (stats.total + 1) % TWO_64;
    if allowed then stats.(total := total, allowed := (stats.allowed + 1) % TWO_64)
    else stats.(total := total, denied := (stats.denied + 1) % TWO_64)
  }

  lemma {:induction false} FirstApplyingSound(users: map<string, User>, rules: seq<ACLRule>, r: AccessRequest)
    ensures match FirstApplying(users, rules, r)
            case None => forall x :: x in rules ==> !Applies(users, x, r)
            case Some(rule) => exists i :: 0 <= i < |rules| && rules[i] == rule && Applies(users, rule, r)
                                 && forall k :: 0 <= k < i ==> !Applies(users, rules[k], r)
  {
    hide Applies;
    if rules != [] && !Applies(users, rules[0], r) {
      FirstApplyingSound(users, rules[1..], r);
      var found := FirstApplying(users, rules[1..], r);
      if found.Some? {
        var i :| 0 <= i < |rules[1..]| && rules[1..][i] == found.value
          && forall k :: 0 <= k < i ==> !Applies(users, rules[1..][k], r);
        assert rules[i + 1] == found.value;
        forall k | 0 <= k < i + 1 ensures !Applies(users, rules[k], r) {
          if k > 0 { assert rules[k] == rules[1..][k - 1]; }
        }
      } else {
        assert forall x :: x in rules <==> x == rules[0] || x in rules[1..];
      }
    }
  }

  /** A stored rule that applies, and that no other applying rule outranks. */
  ghost predicate Decisive(am: Auth, r: AccessRequest, rule: ACLRule) {
    && rule in am.rules && Applies(am.users, rule, r)
    && forall x :: x in am.rules && Applies(am.users, x, r) ==> x.priority <= rule.priority
  }

  /**
   After the two early exits the decision is the action of an applying rule of the highest priority, or the
   default when no rule applies.
   */
  lemma DecisionByPriority(am: Auth, r: AccessRequest)
    requires (am.authRequired || !am.defaultAllow) && !(am.authRequired && r.username == "")
    ensures (forall x :: x in am.rules ==> !Applies(am.users, x, r)) ==> Decision(am, r) == am.defaultAllow
    ensures (exists x :: x in am.rules && Applies(am.users, x, r)) ==>
              exists rule :: Decisive(am, r, rule) && Decision(am, r) == (rule.action == "allow")
  {
    hide Applies, Sorted, Decisive;
    var sorted := Sorted(am.rules);
    SortedHolds(am.rules);
    FirstApplyingSound(am.users, sorted, r);
    var found := FirstApplying(am.users, sorted, r);
    if found.Some? {
      FirstIsDecisive(am, r, found.value);
    }
    hide FirstApplying;
  }

  /** The two early exits come before any rule: nameless requests are refused, and an open manager takes all others. */
  lemma EarlyExits(am: Auth, r: AccessRequest)
    ensures am.authRequired && r.username == "" ==> !Decision(am, r)
    ensures !am.authRequired && am.defaultAllow ==> Decision(am, r)
  {
    hide FirstApplying, Sorted;
  }

  lemma SortedHolds(rules: seq<ACLRule>)
    ensures forall x :: x in Sorted(rules) <==> x in rules
  {
    hide Sorted;
    SortedIsSorted(rules);
    var sorted := Sorted(rules);
    assert forall x :: x in sorted <==> x in multiset(sorted);
    assert forall x :: x in rules <==> x in multiset(rules);
  }

  /** The first applying rule in the sorted order is outranked by no other. */
  lemma FirstIsDecisive(am: Auth, r: AccessRequest, rule: ACLRule)
    requires FirstApplying(am.users, Sorted(am.rules), r) == Some(rule)
    ensures Decisive(am, r, rule)
  {
    hide Applies, Sorted;
    var sorted := Sorted(am.rules);
    SortedHolds(am.rules);
    SortedIsSorted(am.rules);
    FirstApplyingSound(am.users, sorted, r);
    hide FirstApplying;
    var i :| 0 <= i < |sorted| && sorted[i] == rule && forall k :: 0 <= k < i ==> !Applies(am.users, sorted[k], r);
    forall x | x in am.rules && Applies(am.users, x, r) ensures x.priority <= rule.priority {
      assert x in sorted;
      var k :| 0 <= k < |sorted| && sorted[k] == x;
    }
  }

  /** When all decisive rules agree, the order among equal priorities does not matter. */
  lemma DecisionIsUnique(am: Auth, r: AccessRequest, rule: ACLRule)
    requires (am.authRequired || !am.defaultAllow) && !(am.authRequired && r.username == "")
    requires Decisive(am, r, rule)
    requires forall x :: Decisive(am, r, x) ==> x.action == rule.action
    ensures Decision(am, r) == (rule.action == "allow")
  {
    hide Applies, Decision;
    DecisionByPriority(am, r);
  }

  // ---------------------------------------------------------------------------
  // The manager
  // ---------------------------------------------------------------------------

  class AuthManager {
    var users: map<string, User>
    var aclRules: seq<ACLRule>
    var authRequired: bool
    var defaultAllow: bool
    var total: uint64
    var allowed: uint64
    var denied: uint64

    /** The value of the manager. */
    function Value(): Auth
      reads this
    {
      Auth(users, aclRules, authRequired, defaultAllow, AuthStats(total, allowed, denied))
    }

    constructor ()
      ensures Value() == Auth(map[], [], false, true, AuthStats(0, 0, 0))
    {
      users, aclRules, authRequired, defaultAllow := map[], [], false, true;
      total, allowed, denied := 0, 0, 0;
    }

    method UserInGroup(user: User, group: string) returns (b: bool)
      ensures b <==> group in user.permissions
    {
      for i := 0 to |user.permissions|
        invariant group !in user.permissions[..i]
      {
        if user.permissions[i] == group {
          return true;
        }
      }
      assert user.permissions[..|user.permissions|] == user.permissions;
      b := false;
    }

    method CheckIP(ruleIP: string, clientIP: string) returns (b: bool)
      ensures b == MatchIP(ruleIP, clientIP)
    {
      if ruleIP == "*" || ruleIP == clientIP {
        return true;
      }
      if '*' in ruleIP {
        var ruleParts, clientParts := Split(ruleIP, '.'), Split(clientIP, '.');
        if |ruleParts| != |clientParts| {
          return false;
        }
        for i := 0 to |ruleParts|
          invariant forall k :: 0 <= k < i ==> ruleParts[k] == "*" || ruleParts[k] == clientParts[k]
        {
          if ruleParts[i] != "*" && ruleParts[i] != clientParts[i] {
            return false;
          }
        }
        return true;
      }
      b := false;
    }

    method MatchACLRule(rule: ACLRule, r: AccessRequest) returns (b: bool)
      ensures b == MatchRule(users, rule, r)
    {
      hide MatchIP, HasPrefix;
      if rule.path != "" && !HasPrefix(r.path, rule.path) {
        return false;
      }
      if rule.method_ != "" && rule.method_ != r.method_ {
        return false;
      }
      if rule.sourceIP != "" {
        var ip := CheckIP(rule.sourceIP, r.clientIP);
        if !ip {
          return false;
        }
      }
      if rule.userGroup != "" {
        if r.username !in users {
          return false;
        }
        var member := UserInGroup(users[r.username], rule.userGroup);
        if !member {
          return false;
        }
      }
      b := true;
    }

    /** The copy of the rules, sorted in place; the stored rules stay as they are. */
    method SortRules() returns (rules: array<ACLRule>)
      ensures fresh(rules) && rules[..] == Sorted(aclRules)
    {
      rules := new ACLRule[|aclRules|](k requires 0 <= k < |aclRules| reads this => aclRules[k]);
      assert rules[..] == aclRules;
      var i := 0;
      while i + 1 < rules.Length
        invariant SortFrom(rules[..], i, i + 1) == Sorted(aclRules)
        decreases rules.Length - i
      {
        var j := i + 1;
        while j < rules.Length
          invariant i < j <= rules.Length
          invariant SortFrom(rules[..], i, j) == Sorted(aclRules)
        {
          if rules[i].priority < rules[j].priority {
            ghost var before := rules[..];
            rules[i], rules[j] := rules[j], rules[i];
            assert rules[..] == Swapped(before, i, j);
          }
          j := j + 1;
        }
        i := i + 1;
      }
    }

    method CountRequest(allow: bool)
      modifies this`allowed, this`denied
      ensures allowed == (if allow then (old(allowed) + 1) % TWO_64 else old(allowed))
      ensures denied == (if allow then old(denied) else (old(denied) + 1) % TWO_64)
    {
      if allow {
        allowed := (allowed + 1) % TWO_64;
      } else {
        denied := (denied + 1) % TWO_64;
      }
    }

    method CheckAccess(r: AccessRequest) returns (allow: bool)
      modifies this`total, this`allowed, this`denied
      ensures allow == Decision(old(Value()), r)
      ensures Value() == old(Value()).(stats := Count(old(Value()).stats, allow))
    {
      hide MatchRule, Sorted;
      total := (total + 1) % TWO_64;
      if !authRequired && defaultAllow {
        CountRequest(true);
        return true;
      }
      if authRequired && r.username == "" {
        CountRequest(false);
        return false;
      }
      var rules := SortRules();
      for i := 0 to rules.Length
        invariant rules[..] == Sorted(aclRules)
        invariant Value() == old(Value()).(stats := old(Value()).stats.(total := (old(total) + 1) % TWO_64))
        invariant FirstApplying(users, rules[i..], r) == FirstApplying(users, Sorted(aclRules), r)
      {
        var rule := rules[i];
        assert rules[i..][1..] == rules[i + 1..];
        if !rule.enabled {
          continue;
        }
        var matches := MatchACLRule(rule, r);
        if matches {
          allow := rule.action == "allow";
          CountRequest(allow);
          return;
        }
      }
      allow := defaultAllow;
      CountRequest(allow);
    }

    /** AddACLRule: the rule gets an ID from the clock and goes to the end. */
    method AddACLRule(rule: ACLRule, now: int)
      modifies this`aclRules
      ensures Value() == old(Value()).(rules := old(aclRules) + [rule.(id := "rule-" + Itoa(now))])
    {
      aclRules := aclRules + [rule.(id := "rule-" + Itoa(now))];
    }

    /** RemoveACLRule: the first rule with the ID goes. */
    method RemoveACLRule(ruleID: string) returns (found: bool)
      modifies this`aclRules
      ensures Value() == old(Value()).(rules := Without(old(aclRules), ruleID))
      ensures found <==> exists i :: 0 <= i < |old(aclRules)| && old(aclRules)[i].id == ruleID
    {
      hide Without;
      for i := 0 to |aclRules|
        invariant aclRules == old(aclRules)
        invariant forall k :: 0 <= k < i ==> aclRules[k].id != ruleID
      {
        if aclRules[i].id == ruleID {
          WithoutCuts(aclRules, ruleID, i);
          aclRules := aclRules[..i] + aclRules[i + 1..];
          return true;
        }
      }
      WithoutNothing(aclRules, ruleID);
      found := false;
    }
  }

  function Without(rules: seq<ACLRule>, id: string): seq<ACLRule> {
    if rules == [] then []
    else if rules[0].id == id then rules[1..]
    else [rules[0]] + Without(rules[1..], id)
  }

  lemma {:induction false} WithoutCuts(rules: seq<ACLRule>, id: string, i: nat)
    requires i < |rules| && rules[i].id == id && forall k :: 0 <= k < i ==> rules[k].id != id
    ensures Without(rules, id) == rules[..i] + rules[i + 1..]
  {
    if i > 0 {
      WithoutCuts(rules[1..], id, i - 1);
      assert rules[1..][..i - 1] == rules[1..i] && rules[1..][i..] == rules[i + 1..];
      assert rules[..i] == [rules[0]] + rules[1..i];
    }
  }

  lemma {:induction false} WithoutNothing(rules: seq<ACLRule>, id: string)
    requires forall k :: 0 <= k < |rules| ==> rules[k].id != id
    ensures Without(rules, id) == rules
  {
    if rules != [] {
      WithoutNothing(rules[1..], id);
      assert [rules[0]] + rules[1..] == rules;
    }
  }

  // ---------------------------------------------------------------------------
  // Runs
  // ---------------------------------------------------------------------------

  datatype AuthOp =
    | Check(r: AccessRequest)
    | AddRule(rule: ACLRule)
    | RemoveRule(id: string)
    | SetUsers(users: map<string, User>)
    | SetAuthRequired(required: bool)
    | SetDefaultAllow(allow: bool)

  function Step(am: Auth, op: AuthOp): Auth {
    match op
    case Check(r) => am.(stats := Count(am.stats, Decision(am, r)))
    case AddRule(rule) => am.(rules := am.rules + [rule])
    case RemoveRule(id) => am.(rules := Without(am.rules, id))
    case SetUsers(users) => am.(users := users)
    case SetAuthRequired(required) => am.(authRequired := required)
    case SetDefaultAllow(allow) => am.(defaultAllow := allow)
  }

  function Run(am: Auth, ops: seq<AuthOp>): Auth
    decreases |ops|
  {
    if ops == [] then am else Run(Step(am, ops[0]), ops[1..])
  }

  /** How many of the requests in a run are allowed, each decided in the state it finds. */
  function AllowedIn(am: Auth, ops: seq<AuthOp>): nat
    decreases |ops|
  {
    if ops == [] then 0
    else (if ops[0].Check? && Decision(am, ops[0].r) then 1 else 0) + AllowedIn(Step(am, ops[0]), ops[1..])
  }

  function RequestsIn(ops: seq<AuthOp>): nat {
    if ops == [] then 0 else (if ops[0].Check? then 1 else 0) + RequestsIn(ops[1..])
  }

  lemma {:induction false} AllowedAreRequests(am: Auth, ops: seq<AuthOp>)
    ensures AllowedIn(am, ops) <= RequestsIn(ops)
    decreases |ops|
  {
    hide Decision, Step;
    if ops != [] {
      AllowedAreRequests(Step(am, ops[0]), ops[1..]);
    }
  }

  lemma StepCounters(am: Auth, op: AuthOp)
    ensures var (n, k) := (if op.Check? then 1 else 0, if op.Check? && Decision(am, op.r) then 1 else 0);
            && Step(am, op).stats.total == (am.stats.total + n) % TWO_64
            && Step(am, op).stats.allowed == (am.stats.allowed + k) % TWO_64
            && Step(am, op).stats.denied == (am.stats.denied + (n - k)) % TWO_64
  {
    hide Decision, Without;
  }

  lemma WrapStep(x: int, d: int, n: int)
    ensures ((x + d) % TWO_64 + n) % TWO_64 == (x + (d + n)) % TWO_64
  {
  }

  /** Over every run, edits included: each counter grows by the requests it stands for, and total = allowed + denied. */
  lemma {:induction false} CountersOfRun(am: Auth, ops: seq<AuthOp>)
    ensures Run(am, ops).stats.total == (am.stats.total + RequestsIn(ops)) % TWO_64
    ensures Run(am, ops).stats.allowed == (am.stats.allowed + AllowedIn(am, ops)) % TWO_64
    ensures Run(am, ops).stats.denied == (am.stats.denied + RequestsIn(ops) - AllowedIn(am, ops)) % TWO_64
    decreases |ops|
  {
    hide Step, Decision;
    if ops != [] {
      hide TWO_64;
      StepCounters(am, ops[0]);
      CountersOfRun(Step(am, ops[0]), ops[1..]);
      var requests: int := RequestsIn(ops[1..]);
      var allowed: int := AllowedIn(Step(am, ops[0]), ops[1..]);
      var n := if ops[0].Check? then 1 else 0;
      var k := if ops[0].Check? && Decision(am, ops[0].r) then 1 else 0;
      WrapStep(am.stats.total, n, requests);
      WrapStep(am.stats.allowed, k, allowed);
      WrapStep(am.stats.denied, n - k, requests - allowed);
      assert am.stats.denied + (n - k + (requests - allowed)) == am.stats.denied + RequestsIn(ops) - AllowedIn(am, ops);
    }
  }

  /** In every run from a balanced state, the total is the sum of allowed and denied requests. */
  lemma TotalIsSum(am: Auth, ops: seq<AuthOp>)
    requires am.stats.total == (am.stats.allowed + am.stats.denied) % TWO_64
    ensures var s := Run(am, ops).stats; s.total == (s.allowed + s.denied) % TWO_64
  {
    hide Run, AllowedIn, RequestsIn, TWO_64;
    CountersOfRun(am, ops);
    var n: int := RequestsIn(ops);
    var k: int := AllowedIn(am, ops);
    SumWraps(am.stats.allowed, am.stats.denied, k, n - k);
    assert k + (n - k) == n;
    assert am.stats.denied + n - k == am.stats.denied + (n - k);
  }

  lemma SumWraps(a: int, d: int, k: int, m: int)
    ensures ((a + d) % TWO_64 + (k + m)) % TWO_64 == ((a + k) % TWO_64 + (d + m) % TWO_64) % TWO_64
  {
  }

  /** The run without its requests that carry no username. */
  function Named(ops: seq<AuthOp>): (named: seq<AuthOp>) {
    if ops == [] then []
    else if ops[0].Check? && ops[0].r.username == "" then Named(ops[1..])
    else [ops[0]] + Named(ops[1..])
  }

  lemma DecisionIgnoresStats(am: Auth, stats: AuthStats, r: AccessRequest)
    ensures Decision(am.(stats := stats), r) == Decision(am, r)
  {
    hide FirstApplying, Sorted;
  }

  lemma StepIgnoresStats(am: Auth, stats: AuthStats, op: AuthOp)
    ensures exists later :: Step(am.(stats := stats), op) == Step(am, op).(stats := later)
  {
    hide Decision, Without, Count;
    var step := Step(am.(stats := stats), op);
    assert step == Step(am, op).(stats := step.stats);
  }

  /**
   While authentication is required, requests without a username add nothing to those allowed: taking them out of
   the run leaves as many, whatever rules, users and defaults are set in between.
   */
  lemma {:induction false} NamelessAddNothing(am: Auth, stats: AuthStats, ops: seq<AuthOp>)
    requires am.authRequired && SetAuthRequired(false) !in ops
    ensures AllowedIn(am, ops) == AllowedIn(am.(stats := stats), Named(ops))
    decreases |ops|
  {
    hide Decision, Without, Count;
    if ops != [] {
      var (op, rest) := (ops[0], ops[1..]);
      assert SetAuthRequired(false) !in rest && op != SetAuthRequired(false);
      if op.Check? && op.r.username == "" {
        EarlyExits(am, op.r);
        var step := Step(am, op);
        assert step.(stats := stats) == am.(stats := stats);
        NamelessAddNothing(step, stats, rest);
      } else {
        assert Named(ops)[0] == op && Named(ops)[1..] == Named(rest);
        if op.Check? { DecisionIgnoresStats(am, stats, op.r); }
        StepIgnoresStats(am, stats, op);
        var later :| Step(am.(stats := stats), op) == Step(am, op).(stats := later);
        assert Step(am, op).authRequired;
        NamelessAddNothing(Step(am, op), later, rest);
      }
    }
  }

  /** So for the counters: the count of allowed requests is the one of the run without the nameless ones. */
  lemma AllowedAreNamed(am: Auth, ops: seq<AuthOp>)
    requires am.authRequired && SetAuthRequired(false) !in ops
    ensures Run(am, ops).stats.allowed == Run(am, Named(ops)).stats.allowed
    ensures (forall op :: op in ops && op.Check? ==> op.r.username == "") ==>
              Run(am, ops).stats.allowed == am.stats.allowed % TWO_64
  {
    hide Run, AllowedIn, RequestsIn, TWO_64, Named;
    NamelessAddNothing(am, am.stats, ops);
    assert am.(stats := am.stats) == am;
    CountersOfRun(am, ops);
    CountersOfRun(am, Named(ops));
    if forall op :: op in ops && op.Check? ==> op.r.username == "" {
      NoneNamed(am, ops);
    }
  }

  lemma {:induction false} NoneNamed(am: Auth, ops: seq<AuthOp>)
    requires forall op :: op in ops && op.Check? ==> op.r.username == ""
    requires am.authRequired && SetAuthRequired(false) !in ops
    ensures AllowedIn(am, ops) == 0
    decreases |ops|
  {
    hide Decision, Without, Count;
    if ops != [] {
      if ops[0].Check? { EarlyExits(am, ops[0].r); }
      assert ops[0] in ops;
      assert forall op :: op in ops[1..] ==> op in ops;
      NoneNamed(Step(am, ops[0]), ops[1..]);
    }
  }

  /** While it is off and the default allows, every request is allowed, whatever the rules say. */
  lemma {:induction false} OpenAllowsAll(am: Auth, ops: seq<AuthOp>)
    requires !am.authRequired && am.defaultAllow
    requires SetAuthRequired(true) !in ops && SetDefaultAllow(false) !in ops
    ensures AllowedIn(am, ops) == RequestsIn(ops)
    ensures Run(am, ops).stats.denied == am.stats.denied % TWO_64
    decreases |ops|
  {
    hide Decision, Without, TWO_64;
    if ops != [] {
      if ops[0].Check? { EarlyExits(am, ops[0].r); }
      assert ops[0] in ops;
      assert forall op :: op in ops[1..] ==> op in ops;
      OpenAllowsAll(Step(am, ops[0]), ops[1..]);
    }
    CountersOfRun(am, ops);
  }
}
