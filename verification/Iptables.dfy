/**
 One iptables table, and the loops that add rules to chains of their own and remove them again.  A chain
 is created, with a jump from its base chain, for its first rule, and removed after its last.
 */
module Iptables {
  type Rule = seq<string>

  type Chains = map<string, seq<Rule>>

  /** A rule of a chain that hangs off a built-in base chain. */
  datatype Entry = Entry(base: string, chain: string, spec: Rule)

  function Jump(chain: string): Rule {
    ["-j", chain]
  }

  predicate Targets(rule: Rule, chain: string) {
    |rule| >= 2 && rule[|rule| - 2] == "-j" && rule[|rule| - 1] == chain
  }

  // ----- commands -----

  function IndexOf(list: seq<Rule>, rule: Rule): (i: nat)
    requires rule in list
    ensures i < |list| && list[i] == rule && forall k | 0 <= k < i :: list[k] != rule
  {
    if list[0] == rule then 0 else 1 + IndexOf(list[1..], rule)
  }

  /** The first occurrence goes. */
  function Without(list: seq<Rule>, rule: Rule): seq<Rule>
    requires rule in list
  {
    var i := IndexOf(list, rule);
    list[..i] + list[i + 1..]
  }

  function Append(c: Chains, chain: string, rule: Rule): Chains
    requires chain in c
  {
    if rule in c[chain] then c else c[chain := c[chain] + [rule]]
  }

  /** The kernel refuses to delete a chain that holds rules or is the target of one. */
  predicate Deletable(c: Chains, chain: string) {
    chain in c && c[chain] == [] && forall name | name in c :: NoneTargets(c[name], chain)
  }

  predicate NoneTargets(list: seq<Rule>, chain: string) {
    forall i | 0 <= i < |list| :: !Targets(list[i], chain)
  }

  function SetupOne(c: Chains, e: Entry): (r: Chains)
    requires e.base in c
    ensures c.Keys <= r.Keys
  {
    var c1 := if e.chain in c then c else Append(c[e.chain := []], e.base, Jump(e.chain));
    Append(c1, e.chain, e.spec)
  }

  /** The chains afterwards, and whether every command succeeded. */
  function TeardownOne(c: Chains, e: Entry): (Chains, bool) {
    if e.chain !in c || e.spec !in c[e.chain] then (c, false)
    else
      var c1 := c[e.chain := Without(c[e.chain], e.spec)];
      if c1[e.chain] != [] then (c1, true)
      else
        var c2 := if e.base in c1 && Jump(e.chain) in c1[e.base] then c1[e.base := Without(c1[e.base], Jump(e.chain))] else c1;
        if Deletable(c2, e.chain) then (c2 - {e.chain}, true) else (c2, false)
  }

  predicate HasBases(c: Chains, entries: seq<Entry>) {
    forall i | 0 <= i < |entries| :: entries[i].base in c
  }

  function SetupAll(c: Chains, entries: seq<Entry>): (r: Chains)
    requires HasBases(c, entries)
    ensures c.Keys <= r.Keys
  {
    if entries == [] then c
    else SetupOne(SetupAll(c, entries[..|entries| - 1]), entries[|entries| - 1])
  }

  /** The first failing command ends the loop. */
  function TeardownAll(c: Chains, entries: seq<Entry>): (Chains, bool) {
    if entries == [] then (c, true)
    else
      var r := TeardownAll(c, entries[..|entries| - 1]);
      if r.1 then TeardownOne(r.0, entries[|entries| - 1]) else r
  }

  lemma {:induction false} FailedTeardownStops(c: Chains, entries: seq<Entry>, i: nat)
    requires i <= |entries| && !TeardownAll(c, entries[..i]).1
    ensures TeardownAll(c, entries) == TeardownAll(c, entries[..i])
    decreases |entries|
  {
    if i == |entries| {
      assert entries[..i] == entries;
    } else {
      var n := |entries| - 1;
      assert entries[..n][..i] == entries[..i];
      FailedTeardownStops(c, entries[..n], i);
    }
  }

  /** Setting up entries that are there already changes nothing. */
  lemma {:induction false} SetupTwiceIsOnce(c: Chains, e: Entry)
    requires e.base in c
    ensures SetupOne(SetupOne(c, e), e) == SetupOne(c, e)
  {
    var c1 := if e.chain in c then c else Append(c[e.chain := []], e.base, Jump(e.chain));
    assert e.chain in c1 && e.spec in Append(c1, e.chain, e.spec)[e.chain];
  }

  /** Removing a rule that is not there fails and changes nothing. */
  lemma UnknownRuleFails(c: Chains, base: string, chain: string, rules: seq<Rule>, e: Entry)
    requires Reflects(c, base, chain, rules) && e.base == base && e.chain == chain && e.spec !in rules
    ensures TeardownOne(c, e) == (c, false)
  {
  }

  class Table {
    var chains: Chains

    method NewChain(chain: string) returns (ok: bool)
      modifies this
      ensures ok == (chain !in old(chains))
      ensures chains == if ok then old(chains)[chain := []] else old(chains)
    {
      ok := chain !in chains;
      if ok {
        chains := chains[chain := []];
      }
    }

    method AppendUnique(chain: string, rule: Rule) returns (ok: bool)
      modifies this
      ensures ok == (chain in old(chains))
      ensures chains == if ok then Append(old(chains), chain, rule) else old(chains)
    {
      ok := chain in chains;
      if ok && rule !in chains[chain] {
        chains := chains[chain := chains[chain] + [rule]];
      }
    }

    method DeleteRule(chain: string, rule: Rule) returns (ok: bool)
      modifies this
      ensures ok == (chain in old(chains) && rule in old(chains)[chain])
      ensures chains == if ok then old(chains)[chain := Without(old(chains)[chain], rule)] else old(chains)
    {
      ok := chain in chains && rule in chains[chain];
      if ok {
        chains := chains[chain := Without(chains[chain], rule)];
      }
    }

    method DeleteChain(chain: string) returns (ok: bool)
      modifies this
      ensures ok == Deletable(old(chains), chain)
      ensures chains == if ok then old(chains) - {chain} else old(chains)
    {
      ok := Deletable(chains, chain);
      if ok {
        chains := chains - {chain};
      }
    }

    method Setup(entries: seq<Entry>) returns (ok: bool)
      requires HasBases(chains, entries)
      modifies this
      ensures ok && chains == SetupAll(old(chains), entries)
    {
      for i := 0 to |entries|
        invariant HasBases(old(chains), entries[..i]) && chains == SetupAll(old(chains), entries[..i])
      {
        var e := entries[i];
        assert entries[..i + 1][..i] == entries[..i];
        if e.chain !in chains {
          ok := NewChain(e.chain);
          if !ok { return; }
          ok := AppendUnique(e.base, Jump(e.chain));
          if !ok { return; }
        }
        ok := AppendUnique(e.chain, e.spec);
        if !ok { return; }
      }
      assert entries[..|entries|] == entries;
      ok := true;
    }

    method Teardown(entries: seq<Entry>) returns (ok: bool)
      modifies this
      ensures (chains, ok) == TeardownAll(old(chains), entries)
    {
      for i := 0 to |entries|
        invariant (chains, true) == TeardownAll(old(chains), entries[..i])
      {
        ok := TeardownEntry(entries[i]);
        assert entries[..i + 1][..i] == entries[..i];
        assert (chains, ok) == TeardownAll(old(chains), entries[..i + 1]);
        if !ok {
          FailedTeardownStops(old(chains), entries, i + 1);
          return;
        }
      }
      assert entries[..|entries|] == entries;
      ok := true;
    }

    /** One round of the loop of the teardown. */
    method TeardownEntry(e: Entry) returns (ok: bool)
      modifies this
      ensures (chains, ok) == TeardownOne(old(chains), e)
    {
      ok := DeleteRule(e.chain, e.spec);
      if !ok { return; }
      if chains[e.chain] != [] { return; }
      if e.base in chains && Jump(e.chain) in chains[e.base] {
        ok := DeleteRule(e.base, Jump(e.chain));
      }
      ok := DeleteChain(e.chain);
    }
  }

  // ----- one chain -----

  /** Only the base chain jumps to the chain, and only in one way. */
  predicate OnlyBaseJumps(c: Chains, base: string, chain: string) {
    && (forall name | name in c && name != base :: NoneTargets(c[name], chain))
    && (base in c ==> forall i | 0 <= i < |c[base]| :: Targets(c[base][i], chain) ==> c[base][i] == Jump(chain))
  }

  /** The chain and its single jump exist exactly while there are rules, and the chain holds exactly these. */
  predicate Reflects(c: Chains, base: string, chain: string, rules: seq<Rule>) {
    && base in c && OnlyBaseJumps(c, base, chain)
    && multiset(c[base])[Jump(chain)] == (if rules == [] then 0 else 1)
    && (chain in c <==> rules != [])
    && (rules != [] ==> c[chain] == rules)
  }

  predicate Distinct(rules: seq<Rule>) {
    forall i, j | 0 <= i < j < |rules| :: rules[i] != rules[j]
  }

  lemma WithoutAt(list: seq<Rule>, k: nat)
    requires k < |list| && forall i | 0 <= i < k :: list[i] != list[k]
    ensures Without(list, list[k]) == list[..k] + list[k + 1..]
  {
    assert list[k] in list;
  }

  lemma CountWithout(list: seq<Rule>, rule: Rule)
    requires rule in list
    ensures multiset(Without(list, rule)) == multiset(list) - multiset{rule}
  {
    var i := IndexOf(list, rule);
    assert list == list[..i] + [rule] + list[i + 1..];
  }

  lemma SetupOneReflects(c: Chains, e: Entry, rules: seq<Rule>)
    requires Reflects(c, e.base, e.chain, rules) && e.base != e.chain
    requires e.spec !in rules && !Targets(e.spec, e.chain)
    ensures Reflects(SetupOne(c, e), e.base, e.chain, rules + [e.spec])
  {
    if rules == [] {
      assert Jump(e.chain) !in c[e.base];
    }
  }

  lemma LastJumpGoes(c: Chains, base: string, chain: string)
    requires base != chain && base in c && chain in c && c[chain] == []
    requires OnlyBaseJumps(c, base, chain) && multiset(c[base])[Jump(chain)] == 1
    ensures var c2 := c[base := Without(c[base], Jump(chain))];
            Deletable(c2, chain) && Reflects(c2 - {chain}, base, chain, [])
  {
    var c2 := c[base := Without(c[base], Jump(chain))];
    CountWithout(c[base], Jump(chain));
    forall i | 0 <= i < |c2[base]| ensures !Targets(c2[base][i], chain) {
      assert c2[base][i] in multiset(c2[base]);
      assert c2[base][i] in c[base];
    }
  }

  lemma TeardownOneReflects(c: Chains, e: Entry, rules: seq<Rule>, k: nat)
    requires Reflects(c, e.base, e.chain, rules) && e.base != e.chain
    requires Distinct(rules) && k < |rules| && rules[k] == e.spec
    ensures TeardownOne(c, e).1
    ensures Reflects(TeardownOne(c, e).0, e.base, e.chain, rules[..k] + rules[k + 1..])
  {
    var rest := rules[..k] + rules[k + 1..];
    WithoutAt(rules, k);
    var c1 := c[e.chain := rest];
    forall i | 0 <= i < |rest| ensures !Targets(rest[i], e.chain) {
      assert rest[i] in rules;
    }
    assert OnlyBaseJumps(c1, e.base, e.chain);
    if rest == [] {
      LastJumpGoes(c1, e.base, e.chain);
    }
  }

  // ----- two chains -----

  /** Both hold the same under this name. */
  predicate Same(c: Chains, c2: Chains, name: string) {
    (name in c <==> name in c2) && (name in c ==> c2[name] == c[name])
  }

  /** Every rule for `target` was there before. */
  predicate NoNewTargets(c: Chains, c2: Chains, target: string) {
    forall name | name in c2 :: forall i | 0 <= i < |c2[name]| && Targets(c2[name][i], target) :: name in c && c2[name][i] in c[name]
  }

  /** Only the base and the chain of the entry change. */
  ghost predicate Local(c: Chains, c2: Chains, e: Entry) {
    forall name | name != e.base && name != e.chain :: Same(c, c2, name)
  }

  lemma SetupOneIsLocal(c: Chains, e: Entry, target: string)
    requires e.base in c && e.base != e.chain && e.chain != target && !Targets(e.spec, target)
    ensures Local(c, SetupOne(c, e), e) && NoNewTargets(c, SetupOne(c, e), target)
  {
  }

  lemma TeardownOneIsLocal(c: Chains, e: Entry, target: string)
    requires e.base != e.chain
    ensures Local(c, TeardownOne(c, e).0, e) && NoNewTargets(c, TeardownOne(c, e).0, target)
  {
  }

  lemma LocalKeepsOther(c: Chains, c2: Chains, e: Entry, base: string, chain: string, rules: seq<Rule>)
    requires Local(c, c2, e) && NoNewTargets(c, c2, chain) && {base, chain} !! {e.base, e.chain}
    requires Reflects(c, base, chain, rules)
    ensures Reflects(c2, base, chain, rules)
  {
    assert Same(c, c2, base) && Same(c, c2, chain);
  }

  /** On the two chains of an entry, teardown undoes set-up. */
  lemma UndoOne(c: Chains, c2: Chains, e: Entry, rules: seq<Rule>)
    requires Reflects(c, e.base, e.chain, rules) && e.base != e.chain && Distinct(rules + [e.spec]) && e.spec !in rules
    requires !Targets(e.spec, e.chain) && Reflects(c2, e.base, e.chain, rules + [e.spec])
    requires Same(SetupOne(c, e), c2, e.base) && Same(SetupOne(c, e), c2, e.chain)
    ensures TeardownOne(c2, e).1
    ensures Same(c, TeardownOne(c2, e).0, e.base) && Same(c, TeardownOne(c2, e).0, e.chain)
  {
    var all := rules + [e.spec];
    assert all[..|rules|] + all[|rules| + 1..] == rules;
    TeardownOneReflects(c2, e, all, |rules|);
    WithoutAt(all, |rules|);
    if rules == [] {
      var base := c[e.base] + [Jump(e.chain)];
      assert Jump(e.chain) !in c[e.base];
      WithoutAt(base, |c[e.base]|);
    }
  }

  /** The entries are for two chains with different names, and their rules jump to neither. */
  predicate Disjoint(e: Entry, f: Entry) {
    && {e.base, e.chain} !! {f.base, f.chain} && e.base != e.chain && f.base != f.chain
    && !Targets(e.spec, e.chain) && !Targets(e.spec, f.chain) && !Targets(f.spec, e.chain) && !Targets(f.spec, f.chain)
  }

  predicate ReflectsBoth(c: Chains, e: Entry, f: Entry, es: seq<Rule>, fs: seq<Rule>) {
    Reflects(c, e.base, e.chain, es) && Reflects(c, f.base, f.chain, fs)
  }

  lemma AllOfTwo(c: Chains, e: Entry, f: Entry)
    requires e.base in c && f.base in c
    ensures SetupAll(c, [e, f]) == SetupOne(SetupOne(c, e), f)
    ensures TeardownAll(c, [e, f]) == (if TeardownOne(c, e).1 then TeardownOne(TeardownOne(c, e).0, f) else TeardownOne(c, e))
  {
    assert [e, f][..1] == [e] && [e][..0] == [];
    assert SetupAll(c, []) == c && TeardownAll(c, []) == (c, true);
    assert SetupAll(c, [e]) == SetupOne(c, e) && TeardownAll(c, [e]) == TeardownOne(c, e);
  }

  lemma SetupReflects(c: Chains, e: Entry, f: Entry, es: seq<Rule>, fs: seq<Rule>)
    requires ReflectsBoth(c, e, f, es, fs) && Disjoint(e, f) && e.spec !in es && f.spec !in fs
    ensures ReflectsBoth(SetupAll(c, [e, f]), e, f, es + [e.spec], fs + [f.spec])
  {
    AllOfTwo(c, e, f);
    var c1 := SetupOne(c, e);
    SetupOneIsLocal(c, e, f.chain);
    SetupOneReflects(c, e, es);
    LocalKeepsOther(c, c1, e, f.base, f.chain, fs);
    SetupOneIsLocal(c1, f, e.chain);
    SetupOneReflects(c1, f, fs);
    LocalKeepsOther(c1, SetupOne(c1, f), f, e.base, e.chain, es + [e.spec]);
  }

  lemma TeardownReflects(c: Chains, e: Entry, f: Entry, es: seq<Rule>, fs: seq<Rule>, k: nat)
    requires ReflectsBoth(c, e, f, es, fs) && Disjoint(e, f) && Distinct(es) && Distinct(fs)
    requires k < |es| == |fs| && es[k] == e.spec && fs[k] == f.spec
    ensures TeardownAll(c, [e, f]).1
    ensures ReflectsBoth(TeardownAll(c, [e, f]).0, e, f, es[..k] + es[k + 1..], fs[..k] + fs[k + 1..])
  {
    AllOfTwo(c, e, f);
    var c1 := TeardownOne(c, e).0;
    TeardownOneIsLocal(c, e, f.chain);
    TeardownOneReflects(c, e, es, k);
    LocalKeepsOther(c, c1, e, f.base, f.chain, fs);
    TeardownOneIsLocal(c1, f, e.chain);
    TeardownOneReflects(c1, f, fs, k);
    LocalKeepsOther(c1, TeardownOne(c1, f).0, f, e.base, e.chain, es[..k] + es[k + 1..]);
  }

  /** Set-up followed by teardown leaves the whole table as it was. */
  lemma TeardownUndoesSetup(c: Chains, e: Entry, f: Entry, es: seq<Rule>, fs: seq<Rule>)
    requires ReflectsBoth(c, e, f, es, fs) && Disjoint(e, f) && e.spec !in es && f.spec !in fs
    requires Distinct(es + [e.spec]) && Distinct(fs + [f.spec])
    ensures TeardownAll(SetupAll(c, [e, f]), [e, f]) == (c, true)
  {
    AllOfTwo(c, e, f);
    var c1 := SetupOne(c, e);
    var c2 := SetupOne(c1, f);
    SetupReflects(c, e, f, es, fs);
    SetupOneIsLocal(c, e, f.chain);
    LocalKeepsOther(c, c1, e, f.base, f.chain, fs);
    SetupOneIsLocal(c1, f, e.chain);
    assert Same(c1, c2, e.base) && Same(c1, c2, e.chain);
    UndoOne(c, c2, e, es);
    var c3 := TeardownOne(c2, e).0;
    TeardownOneIsLocal(c2, e, f.chain);
    assert Same(c2, c3, f.base) && Same(c2, c3, f.chain);
    LocalKeepsOther(c2, c3, e, f.base, f.chain, fs + [f.spec]);
    UndoOne(c1, c3, f, fs);
    var c4 := TeardownOne(c3, f).0;
    TeardownOneIsLocal(c3, f, e.chain);
    AllOfTwo(c2, e, f);
    Restored(c, c1, c2, c3, c4, e, f);
  }

  lemma Restored(c: Chains, c1: Chains, c2: Chains, c3: Chains, c4: Chains, e: Entry, f: Entry)
    requires Local(c, c1, e) && Local(c1, c2, f) && Local(c2, c3, e) && Local(c3, c4, f)
    requires Same(c, c3, e.base) && Same(c, c3, e.chain) && Same(c1, c4, f.base) && Same(c1, c4, f.chain)
    requires {e.base, e.chain} !! {f.base, f.chain}
    ensures c4 == c
  {
    forall name ensures Same(c, c4, name) {
      if name == e.base || name == e.chain {
        assert Same(c3, c4, name);
      } else if name == f.base || name == f.chain {
        assert Same(c, c1, name);
      } else {
        assert Same(c, c1, name) && Same(c1, c2, name) && Same(c2, c3, name) && Same(c3, c4, name);
      }
    }
    assert forall name :: Same(c, c4, name) ==> (name in c4.Keys <==> name in c.Keys);
    assert c4.Keys == c.Keys;
    assert forall name | name in c :: Same(c, c4, name) && c4[name] == c[name];
  }
}
