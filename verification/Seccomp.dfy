/**
 Compiling a syscall policy to a per-syscall rule map
 (crates/shbox-sandbox/src/linux/seccomp.rs), against the policy's documented meaning
 (crates/shbox-sandbox/src/policy.rs): rules for one syscall are OR-ed, the conditions of
 a rule are AND-ed, and a rule without conditions matches any invocation.

 The BPF back end is taken at its interface: a number without an entry mismatches, an
 entry with an empty rule list matches on the number alone, otherwise some rule must hold.
 */
module Seccomp {
  import opened Options

  datatype ArgLen = Dword | Qword

  datatype CmpOp = Equal | Greater | GreaterEqual | Less | LessEqual | MaskedEqual | NotEqual

  /** A 64-bit register as the two halves a BPF program loads. */
  datatype Word = Word(high: bv32, low: bv32)

  datatype Condition = Condition(arg: nat, len: ArgLen, op: CmpOp, value: Word)

  datatype Syscall = Named(name: string) | Number(number: int)

  datatype Rule = Rule(syscall: Syscall, conditions: seq<Condition>)

  datatype Action = Allow | Errno(errno: nat) | KillThread | KillProcess | Log | Trace(value: nat) | Trap

  datatype Policy = Policy(defaultAction: Action, matchedAction: Action, rules: seq<Rule>)

  type Args = seq<Word>

  /** The syscall numbers of the target architecture. */
  type Table = map<string, int>

  function Resolve(table: Table, syscall: Syscall): Option<int> {
    match syscall
    case Named(name) => if name in table then Some(table[name]) else None
    case Number(number) => Some(number)
  }

  // ---- what a policy means ---------------------------------------------------------

  function Narrow(len: ArgLen, v: Word): Word {
    if len == Dword then Word(0, v.low) else v
  }

  predicate Above(a: Word, b: Word) {
    a.high > b.high || (a.high == b.high && a.low > b.low)
  }

  function Masked(a: Word, mask: Word): Word {
    Word(a.high & mask.high, a.low & mask.low)
  }

  predicate ConditionHolds(c: Condition, args: Args)
    requires |args| == 6
  {
    c.arg < 6 &&
    var a, v := Narrow(c.len, args[c.arg]), Narrow(c.len, c.value);
    match c.op
    case Equal => a == v
    case Greater => Above(a, v)
    case GreaterEqual => a == v || Above(a, v)
    case Less => Above(v, a)
    case LessEqual => a == v || Above(v, a)
    case MaskedEqual => Masked(a, v) == v
    case NotEqual => a != v
  }

  predicate RuleHolds(rule: Rule, args: Args)
    requires |args| == 6
  {
    forall i :: 0 <= i < |rule.conditions| ==> ConditionHolds(rule.conditions[i], args)
  }

  predicate Targets(table: Table, rule: Rule, nr: int) {
    Resolve(table, rule.syscall) == Some(nr)
  }

  predicate Matches(table: Table, rules: seq<Rule>, nr: int, args: Args)
    requires |args| == 6
  {
    exists rule :: rule in rules && Targets(table, rule, nr) && RuleHolds(rule, args)
  }

  function Verdict(table: Table, policy: Policy, nr: int, args: Args): Action
    requires |args| == 6
  {
    if Matches(table, policy.rules, nr, args) then policy.matchedAction else policy.defaultAction
  }

  // ---- compiled filters ------------------------------------------------------------

  /** The back end's masked comparison takes its mask separately. */
  datatype CompiledOp = Eq | Gt | Ge | Lt | Le | Ne | MaskedEq(mask: Word)

  datatype CompiledCondition = CompiledCondition(arg: nat, len: ArgLen, op: CompiledOp, value: Word)

  type CompiledRule = seq<CompiledCondition>

  type RuleMap = map<int, seq<CompiledRule>>

  predicate CompiledConditionHolds(c: CompiledCondition, args: Args)
    requires |args| == 6
  {
    c.arg < 6 &&
    var a, v := Narrow(c.len, args[c.arg]), Narrow(c.len, c.value);
    match c.op
    case Eq => a == v
    case Gt => Above(a, v)
    case Ge => a == v || Above(a, v)
    case Lt => Above(v, a)
    case Le => a == v || Above(v, a)
    case Ne => a != v
    case MaskedEq(mask) => Masked(a, mask) == Masked(v, mask)
  }

  predicate CompiledRuleHolds(rule: CompiledRule, args: Args)
    requires |args| == 6
  {
    forall i :: 0 <= i < |rule| ==> CompiledConditionHolds(rule[i], args)
  }

  predicate MapMatches(compiled: RuleMap, nr: int, args: Args)
    requires |args| == 6
  {
    nr in compiled && (compiled[nr] == [] || exists rule :: rule in compiled[nr] && CompiledRuleHolds(rule, args))
  }

  function CompiledVerdict(policy: Policy, compiled: RuleMap, nr: int, args: Args): Action
    requires |args| == 6
  {
    if MapMatches(compiled, nr, args) then policy.matchedAction else policy.defaultAction
  }

  function CompileCondition(c: Condition): CompiledCondition {
    CompiledCondition(c.arg, c.len,
      match c.op
      case Equal => Eq
      case Greater => Gt
      case GreaterEqual => Ge
      case Less => Lt
      case LessEqual => Le
      case MaskedEqual => MaskedEq(c.value)
      case NotEqual => Ne,
      c.value)
  }

  function CompileRule(conditions: seq<Condition>): CompiledRule {
    seq(|conditions|, i requires 0 <= i < |conditions| => CompileCondition(conditions[i]))
  }

  datatype CompileError = UnknownName(name: string) | RejectedCondition(condition: Condition)

  datatype Compiled = Filter(rules: RuleMap) | Failed(error: CompileError)

  /** Some rule names the number. */
  predicate Mentions(table: Table, rules: seq<Rule>, nr: int) {
    exists rule :: rule in rules && Targets(table, rule, nr)
  }

  /** Some rule with conditions names the number. */
  predicate Conditional(table: Table, rules: seq<Rule>, nr: int) {
    exists rule :: rule in rules && Targets(table, rule, nr) && rule.conditions != []
  }

  /** A number carries both kinds of rule: the case the compiled form does not preserve. */
  predicate Mixed(table: Table, rules: seq<Rule>, nr: int) {
    && Conditional(table, rules, nr)
    && exists rule :: rule in rules && Targets(table, rule, nr) && rule.conditions == []
  }

  /** The compiled rule comes from a conditional rule for the number. */
  predicate Lists(table: Table, rules: seq<Rule>, nr: int, c: CompiledRule) {
    exists rule :: rule in rules && Targets(table, rule, nr) && rule.conditions != [] &&
        c == CompileRule(rule.conditions)
  }

  /** The entry the rules leave for a number: present exactly when it is mentioned, and
      listing exactly its conditional rules. */
  ghost predicate EntryFor(table: Table, rules: seq<Rule>, compiled: RuleMap, nr: int) {
    && (nr in compiled <==> Mentions(table, rules, nr))
    && (nr in compiled ==> forall c :: c in compiled[nr] <==> Lists(table, rules, nr, c))
  }

  predicate Compilable(table: Table, rule: Rule) {
    && Resolve(table, rule.syscall).Some?
    && forall i :: 0 <= i < |rule.conditions| ==> rule.conditions[i].arg <= 5
  }

  /** The error a rule is refused with. */
  predicate Blames(table: Table, rule: Rule, error: CompileError) {
    match error
    case UnknownName(name) => rule.syscall == Named(name) && name !in table
    case RejectedCondition(c) => Resolve(table, rule.syscall).Some? && c in rule.conditions && c.arg > 5
  }

  lemma OneMoreRule(table: Table, rules: seq<Rule>, rule: Rule, nr: int)
    ensures Mentions(table, rules + [rule], nr) <==> Mentions(table, rules, nr) || Targets(table, rule, nr)
    ensures forall c :: Lists(table, rules + [rule], nr, c) <==>
              Lists(table, rules, nr, c) || (Targets(table, rule, nr) && rule.conditions != [] &&
                  c == CompileRule(rule.conditions))
  {
    var more := rules + [rule];
    assert forall r :: r in more <==> r in rules || r == rule;
    if Targets(table, rule, nr) {
      assert rule in more;
    }
    if Mentions(table, rules, nr) {
      var r :| r in rules && Targets(table, r, nr);
      assert r in more;
    }
    forall c | Lists(table, rules, nr, c) ensures Lists(table, more, nr, c) {
      var r :| r in rules && Targets(table, r, nr) && r.conditions != [] && c == CompileRule(r.conditions);
      assert r in more;
    }
  }

  lemma EntryGrows(table: Table, rules: seq<Rule>, rule: Rule, compiled: RuleMap, nr: int)
    requires Resolve(table, rule.syscall).Some?
    requires EntryFor(table, rules, compiled, nr)
    ensures EntryFor(table, rules + [rule], AddRule(compiled, Resolve(table, rule.syscall).value, rule.conditions), nr)
  {
    OneMoreRule(table, rules, rule, nr);
    if nr !in compiled {
      assert forall c :: !Lists(table, rules, nr, c);
    }
  }

  function AddRule(compiled: RuleMap, nr: int, conditions: seq<Condition>): RuleMap {
    var entry := if nr in compiled then compiled[nr] else [];
    compiled[nr := if conditions == [] then entry else entry + [CompileRule(conditions)]]
  }

  /** Compile one rule's conditions; the back end refuses argument indices above five. */
  method CompileConditions(conditions: seq<Condition>) returns (compiled: CompiledRule, bad: Option<Condition>)
    ensures bad.None? <==> forall i :: 0 <= i < |conditions| ==> conditions[i].arg <= 5
    ensures bad.None? ==> compiled == CompileRule(conditions)
    ensures bad.Some? ==> bad.value in conditions && bad.value.arg > 5
  {
    compiled := [];
    for i := 0 to |conditions|
      invariant compiled == CompileRule(conditions[..i])
      invariant forall j :: 0 <= j < i ==> conditions[j].arg <= 5
    {
      if conditions[i].arg > 5 {
        return [], Some(conditions[i]);
      }
      compiled := compiled + [CompileCondition(conditions[i])];
    }
    assert conditions[..|conditions|] == conditions;
    bad := None;
  }

  /** The compilation loop. It fails exactly when some rule names an unknown syscall or
      has a condition the back end refuses. */
  method Compile(table: Table, rules: seq<Rule>) returns (r: Compiled)
    ensures r.Filter? <==> forall rule :: rule in rules ==> Compilable(table, rule)
    ensures r.Filter? ==> forall nr :: EntryFor(table, rules, r.rules, nr)
    ensures r.Failed? ==> exists k :: 0 <= k < |rules| && Blames(table, rules[k], r.error)
                                      && forall rule :: rule in rules[..k] ==> Compilable(table, rule)
  {
    var compiled: RuleMap := map[];
    for i := 0 to |rules|
      invariant forall rule :: rule in rules[..i] ==> Compilable(table, rule)
      invariant forall nr :: EntryFor(table, rules[..i], compiled, nr)
    {
      var rule := rules[i];
      assert rules[..i + 1] == rules[..i] + [rule];
      assert rule in rules;
      var number := Resolve(table, rule.syscall);
      if number.None? {
        assert !Compilable(table, rule);
        return Failed(UnknownName(rule.syscall.name));
      }
      var nr := number.value;
      var entry := if nr in compiled then compiled[nr] else [];
      if rule.conditions != [] {
        var conditions, bad := CompileConditions(rule.conditions);
        if bad.Some? {
          assert !Compilable(table, rule);
          return Failed(RejectedCondition(bad.value));
        }
        entry := entry + [conditions];
      }
      ghost var done, next, added := rules[..i], rules[..i + 1], AddRule(compiled, nr, rule.conditions);
      forall k ensures EntryFor(table, next, added, k) {
        assert EntryFor(table, done, compiled, k);
        EntryGrows(table, done, rule, compiled, k);
      }
      compiled := compiled[nr := entry];
    }
    assert rules[..|rules|] == rules;
    r := Filter(compiled);
  }

  // ---- meaning ---------------------------------------------------------------------

  /** Any map the compilation loop may return. */
  ghost predicate Compiles(table: Table, rules: seq<Rule>, compiled: RuleMap) {
    && (forall rule :: rule in rules ==> Compilable(table, rule))
    && forall nr :: EntryFor(table, rules, compiled, nr)
  }

  /** The mask the back end is given makes its masked comparison the documented one. */
  lemma ConditionMeaning(c: Condition, args: Args)
    requires |args| == 6
    ensures CompiledConditionHolds(CompileCondition(c), args) <==> ConditionHolds(c, args)
  {
    if c.op == MaskedEqual && c.arg < 6 {
      MaskSelf(c.value);
      MaskLow(args[c.arg].low, c.value);
      MaskLow(c.value.low, c.value);
    }
  }

  lemma MaskSelf(v: Word)
    ensures Masked(v, v) == v
  {
  }

  lemma MaskLow(a: bv32, v: Word)
    ensures Masked(Word(0, a), v) == Masked(Word(0, a), Word(0, v.low))
    ensures Masked(Word(0, v.low), Word(0, v.low)) == Word(0, v.low)
  {
  }

  lemma RuleMeaning(rule: Rule, args: Args)
    requires |args| == 6
    ensures CompiledRuleHolds(CompileRule(rule.conditions), args) <==> RuleHolds(rule, args)
  {
    forall i | 0 <= i < |rule.conditions|
      ensures CompiledConditionHolds(CompileRule(rule.conditions)[i], args) <==>
          ConditionHolds(rule.conditions[i], args)
    {
      ConditionMeaning(rule.conditions[i], args);
    }
  }

  /** Some conditional rule for the number holds. */
  predicate ConditionalMatch(table: Table, rules: seq<Rule>, nr: int, args: Args)
    requires |args| == 6
  {
    exists rule :: rule in rules && Targets(table, rule, nr) && rule.conditions != [] && RuleHolds(rule, args)
  }

  lemma ListedMatch(table: Table, rules: seq<Rule>, compiled: RuleMap, nr: int, args: Args)
    requires |args| == 6 && nr in compiled && EntryFor(table, rules, compiled, nr)
    ensures (exists c :: c in compiled[nr] && CompiledRuleHolds(c, args)) <==> ConditionalMatch(table, rules, nr, args)
    ensures compiled[nr] == [] <==> !Conditional(table, rules, nr)
  {
    if c :| c in compiled[nr] && CompiledRuleHolds(c, args) {
      assert Lists(table, rules, nr, c);
      var rule :| rule in rules && Targets(table, rule, nr) && rule.conditions != [] &&
          c == CompileRule(rule.conditions);
      RuleMeaning(rule, args);
    }
    if ConditionalMatch(table, rules, nr, args) {
      var rule :| rule in rules && Targets(table, rule, nr) && rule.conditions != [] && RuleHolds(rule, args);
      RuleMeaning(rule, args);
      assert Lists(table, rules, nr, CompileRule(rule.conditions));
    }
    if Conditional(table, rules, nr) {
      var rule :| rule in rules && Targets(table, rule, nr) && rule.conditions != [];
      assert Lists(table, rules, nr, CompileRule(rule.conditions));
    }
    if compiled[nr] != [] {
      assert compiled[nr][0] in compiled[nr];
      assert Lists(table, rules, nr, compiled[nr][0]);
    }
  }

  /** What the map decides, in terms of the rules alone. */
  lemma MapMeaning(table: Table, rules: seq<Rule>, compiled: RuleMap, nr: int, args: Args)
    requires |args| == 6 && Compiles(table, rules, compiled)
    ensures MapMatches(compiled, nr, args) <==>
              if Conditional(table, rules, nr) then ConditionalMatch(table, rules, nr, args)
              else Mentions(table, rules, nr)
  {
    assert EntryFor(table, rules, compiled, nr);
    if nr in compiled {
      ListedMatch(table, rules, compiled, nr, args);
    }
  }

  /** The rules without the unconditional rules of mixed numbers. */
  function Effective(table: Table, all: seq<Rule>, rules: seq<Rule>): (kept: seq<Rule>)
    ensures forall r :: r in kept <==> r in rules && !Shadowed(table, all, r)
  {
    if rules == [] then [] else
      var rest := Effective(table, all, rules[1..]);
      assert forall r :: r in rules <==> r == rules[0] || r in rules[1..];
      if Shadowed(table, all, rules[0]) then rest else [rules[0]] + rest
  }

  predicate Shadowed(table: Table, rules: seq<Rule>, rule: Rule) {
    && rule.conditions == []
    && Resolve(table, rule.syscall).Some?
    && Conditional(table, rules, Resolve(table, rule.syscall).value)
  }

  /** For all policies, syscalls and arguments the compiled map has exactly the OR-of-ANDs
      meaning of the effective rules. */
  lemma CompiledMeansEffective(table: Table, policy: Policy, compiled: RuleMap, nr: int, args: Args)
    requires |args| == 6 && Compiles(table, policy.rules, compiled)
    ensures CompiledVerdict(policy, compiled, nr, args) ==
            Verdict(table, policy.(rules := Effective(table, policy.rules, policy.rules)), nr, args)
  {
    var kept := Effective(table, policy.rules, policy.rules);
    MapMeaning(table, policy.rules, compiled, nr, args);
    if Conditional(table, policy.rules, nr) {
      if rule :| rule in policy.rules && Targets(table, rule, nr) && rule.conditions != [] && RuleHolds(rule, args) {
        assert rule in kept;
      }
    } else if rule :| rule in policy.rules && Targets(table, rule, nr) {
      assert rule in kept && RuleHolds(rule, args);
    }
  }

  /** Without mixed numbers every rule is effective. */
  lemma {:induction false} UnmixedKeepsEveryRule(table: Table, all: seq<Rule>, rules: seq<Rule>)
    requires forall rule :: rule in rules ==> rule in all
    requires forall nr :: !Mixed(table, all, nr)
    ensures Effective(table, all, rules) == rules
  {
    if rules != [] {
      var first := rules[0];
      assert first in rules;
      if Shadowed(table, all, first) {
        assert Mixed(table, all, Resolve(table, first.syscall).value);
      }
      UnmixedKeepsEveryRule(table, all, rules[1..]);
    }
  }

  /** The compiled filter gives the documented verdict on a call exactly when the number
      is not mixed, or one of its conditional rules holds anyway. */
  lemma VerdictPreservedIff(table: Table, policy: Policy, compiled: RuleMap, nr: int, args: Args)
    requires |args| == 6 && Compiles(table, policy.rules, compiled)
    requires policy.defaultAction != policy.matchedAction
    ensures CompiledVerdict(policy, compiled, nr, args) == Verdict(table, policy, nr, args) <==>
              !Mixed(table, policy.rules, nr) || ConditionalMatch(table, policy.rules, nr, args)
  {
    var rules := policy.rules;
    MapMeaning(table, rules, compiled, nr, args);
    if Mixed(table, rules, nr) {
      var open :| open in rules && Targets(table, open, nr) && open.conditions == [];
      assert RuleHolds(open, args);
    } else if Conditional(table, rules, nr) {
      assert Matches(table, rules, nr, args) <==> ConditionalMatch(table, rules, nr, args);
    } else if Mentions(table, rules, nr) {
      var rule :| rule in rules && Targets(table, rule, nr);
      assert RuleHolds(rule, args);
    }
  }

  /** The verdict does not depend on the order of the rules. */
  lemma OrderIrrelevant(table: Table, policy: Policy, shuffled: seq<Rule>, c0: RuleMap, c1: RuleMap, nr: int,
                        args: Args)
    requires |args| == 6 && multiset(policy.rules) == multiset(shuffled)
    requires Compiles(table, policy.rules, c0) && Compiles(table, shuffled, c1)
    ensures CompiledVerdict(policy, c0, nr, args) == CompiledVerdict(policy, c1, nr, args)
  {
    var rules := policy.rules;
    SameMembers(rules, shuffled);
    MapMeaning(table, rules, c0, nr, args);
    MapMeaning(table, shuffled, c1, nr, args);
    SameMentions(table, rules, shuffled, nr, args);
    SameMentions(table, shuffled, rules, nr, args);
  }

  lemma SameMembers(a: seq<Rule>, b: seq<Rule>)
    requires multiset(a) == multiset(b)
    ensures forall rule :: rule in a <==> rule in b
  {
    assert forall rule :: rule in a <==> rule in multiset(a);
    assert forall rule :: rule in b <==> rule in multiset(b);
  }

  lemma SameMentions(table: Table, a: seq<Rule>, b: seq<Rule>, nr: int, args: Args)
    requires |args| == 6 && forall rule :: rule in a ==> rule in b
    ensures Mentions(table, a, nr) ==> Mentions(table, b, nr)
    ensures Conditional(table, a, nr) ==> Conditional(table, b, nr)
    ensures ConditionalMatch(table, a, nr, args) ==> ConditionalMatch(table, b, nr, args)
  {
  }

  /** A denylist entry that says "always" is lost once a second rule narrows the same
      syscall: every mixed number loses the calls its conditional rules do not cover. */
  lemma MixedLosesUnconditional(table: Table, name: string, nr: int, args: Args)
    requires |args| == 6 && name in table && table[name] == nr && args[0] != Word(0, 1)
    ensures var open, narrow := Rule(Named(name), []), Rule(Number(nr), [Condition(0, Qword, Equal, Word(0, 1))]);
            var policy := Policy(Allow, KillProcess, [open, narrow]);
            && Verdict(table, policy, nr, args) == KillProcess
            && forall compiled :: Compiles(table, policy.rules, compiled) ==>
                 CompiledVerdict(policy, compiled, nr, args) == Allow
  {
    var open, narrow := Rule(Named(name), []), Rule(Number(nr), [Condition(0, Qword, Equal, Word(0, 1))]);
    var policy := Policy(Allow, KillProcess, [open, narrow]);
    assert open in policy.rules && narrow in policy.rules;
    assert RuleHolds(open, args) && Matches(table, policy.rules, nr, args);
    assert Targets(table, narrow, nr) && Conditional(table, policy.rules, nr);
    assert !ConditionHolds(narrow.conditions[0], args);
    forall compiled | Compiles(table, policy.rules, compiled)
      ensures CompiledVerdict(policy, compiled, nr, args) == Allow
    {
      MapMeaning(table, policy.rules, compiled, nr, args);
    }
  }
}
