/** Deleting an inbound, and with it the policies that were made for it alone. */
module InboundDelete {

  // ---- tables ----

  /** The columns that do not matter here are kept as `data`. */
  datatype Policy = Policy(remark: string, data: string)
  datatype Rule = Rule(policyId: int, data: string)
  datatype Binding = Binding(inboundId: int, policyId: int, data: string)

  /** Rows by primary key. */
  datatype Tables = Tables(inbounds: map<int, string>, policies: map<int, Policy>, rules: map<int, Rule>,
                           bindings: map<int, Binding>)

  // ---- managed policies ----

  predicate IsSpace(c: char) {
    || c == ' ' || '\t' <= c <= '\r' || c == '\U{0085}' || c == '\U{00A0}' || c == '\U{1680}'
    || '\U{2000}' <= c <= '\U{200A}' || c == '\U{2028}' || c == '\U{2029}' || c == '\U{202F}' || c == '\U{205F}'
    || c == '\U{3000}'
  }

  function TrimLeft(s: string): string {
    if s != [] && IsSpace(s[0]) then TrimLeft(s[1..]) else s
  }

  function TrimRight(s: string): string {
    if s != [] && IsSpace(s[|s| - 1]) then TrimRight(s[..|s| - 1]) else s
  }

  function TrimSpace(s: string): string {
    TrimRight(TrimLeft(s))
  }

  /** The policy was made by the simple mode of the panel, for one purpose. */
  predicate IsManaged(remark: string) {
    var trimmed := TrimSpace(remark);
    "n5-simple-exec|" <= trimmed || "n5-simple|" <= trimmed
  }

  lemma {:induction false} TrimRightKeeps(prefix: string, s: string)
    requires prefix != [] && prefix <= s && !IsSpace(prefix[|prefix| - 1])
    ensures prefix <= TrimRight(s)
  {
    if IsSpace(s[|s| - 1]) {
      assert |s| != |prefix|;
      TrimRightKeeps(prefix, s[..|s| - 1]);
    }
  }

  lemma {:induction false} TrimRightShortens(s: string)
    ensures TrimRight(s) <= s
  {
    if s != [] {
      TrimRightShortens(s[..|s| - 1]);
    }
  }

  /** Blanks in front of the remark do not matter, nor does anything behind the prefix. */
  lemma ManagedIff(remark: string)
    ensures IsManaged(remark) <==> "n5-simple-exec|" <= TrimLeft(remark) || "n5-simple|" <= TrimLeft(remark)
  {
    var s := TrimLeft(remark);
    TrimRightShortens(s);
    if "n5-simple-exec|" <= s {
      TrimRightKeeps("n5-simple-exec|", s);
    }
    if "n5-simple|" <= s {
      TrimRightKeeps("n5-simple|", s);
    }
  }

  // ---- what deleting an inbound means ----

  predicate BoundTo(t: Tables, inbound: int, policy: int) {
    exists b <- t.bindings :: t.bindings[b].inboundId == inbound && t.bindings[b].policyId == policy
  }

  predicate BoundToOther(t: Tables, inbound: int, policy: int) {
    exists b <- t.bindings :: t.bindings[b].inboundId != inbound && t.bindings[b].policyId == policy
  }

  /** A managed policy that no other inbound uses. */
  predicate Removable(t: Tables, inbound: int, policy: int) {
    policy in t.policies && IsManaged(t.policies[policy].remark) && !BoundToOther(t, inbound, policy)
  }

  predicate Doomed(t: Tables, inbound: int, policy: int) {
    Removable(t, inbound, policy) && BoundTo(t, inbound, policy)
  }

  /** The inbound goes with its bindings, and the policies made for it alone with their rules. */
  function Deleted(t: Tables, inbound: int): Tables {
    Tables(
      map i | i in t.inbounds && i != inbound :: t.inbounds[i],
      map p | p in t.policies && !Doomed(t, inbound, p) :: t.policies[p],
      map r | r in t.rules && !Doomed(t, inbound, t.rules[r].policyId) :: t.rules[r],
      map b | b in t.bindings && t.bindings[b].inboundId != inbound :: t.bindings[b])
  }

  predicate RulesHavePolicies(t: Tables) {
    forall r <- t.rules :: t.rules[r].policyId in t.policies
  }

  predicate HasBinding(t: Tables, policy: int) {
    exists b <- t.bindings :: t.bindings[b].policyId == policy
  }

  predicate HasRule(t: Tables, policy: int) {
    exists r <- t.rules :: t.rules[r].policyId == policy
  }

  /** Referential integrity: nothing mentions the inbound, no rule loses its policy, and other inbounds lose nothing. */
  lemma IntegrityKept(t: Tables, inbound: int)
    requires RulesHavePolicies(t)
    ensures var d := Deleted(t, inbound);
            && inbound !in d.inbounds && (forall b <- d.bindings :: d.bindings[b].inboundId != inbound)
            && RulesHavePolicies(d)
            && (forall b <- t.bindings | t.bindings[b].inboundId != inbound ::
                  b in d.bindings && d.bindings[b] == t.bindings[b]
                  && (t.bindings[b].policyId in t.policies ==> t.bindings[b].policyId in d.policies))
            && (forall i <- t.inbounds | i != inbound :: i in d.inbounds && d.inbounds[i] == t.inbounds[i])
  {
  }

  /** A managed policy that had a binding has one left, or is gone together with its rules; others are untouched. */
  lemma PoliciesAccountedFor(t: Tables, inbound: int, policy: int)
    requires policy in t.policies && RulesHavePolicies(t)
    ensures var d := Deleted(t, inbound);
            && (policy in d.policies ==>
                  d.policies[policy] == t.policies[policy]
                  && forall r <- t.rules | t.rules[r].policyId == policy :: r in d.rules && d.rules[r] == t.rules[r])
            && (policy !in d.policies ==> !HasRule(d, policy) && !HasBinding(d, policy))
            && (policy !in d.policies <==>
                  IsManaged(t.policies[policy].remark) && HasBinding(t, policy) && !HasBinding(d, policy))
  {
    var d := Deleted(t, inbound);
    if HasBinding(d, policy) {
      var b :| b in d.bindings && d.bindings[b].policyId == policy;
      assert t.bindings[b].inboundId != inbound;
    }
    if HasBinding(t, policy) && !HasBinding(d, policy) {
      var b :| b in t.bindings && t.bindings[b].policyId == policy;
      assert t.bindings[b].inboundId != inbound ==> b in d.bindings;
    }
    if BoundToOther(t, inbound, policy) {
      var b :| b in t.bindings && t.bindings[b].inboundId != inbound && t.bindings[b].policyId == policy;
      assert b in d.bindings;
    }
  }

  /** A managed policy that is used, and by no inbound but these two. */
  predicate OnlyFor(t: Tables, a: int, b: int, policy: int) {
    && policy in t.policies && IsManaged(t.policies[policy].remark) && HasBinding(t, policy)
    && forall k <- t.bindings | t.bindings[k].policyId == policy ::
         t.bindings[k].inboundId == a || t.bindings[k].inboundId == b
  }

  lemma DoomedByTwo(t: Tables, a: int, b: int, policy: int)
    ensures Doomed(t, a, policy) || Doomed(Deleted(t, a), b, policy) <==> OnlyFor(t, a, b, policy)
  {
    var d := Deleted(t, a);
    if OnlyFor(t, a, b, policy) && !Doomed(t, a, policy) {
      assert !BoundToOther(d, b, policy);
      if k :| k in t.bindings && t.bindings[k].policyId == policy && t.bindings[k].inboundId != a {
        assert k in d.bindings;
        assert BoundTo(d, b, policy);
      } else {
        assert false;
      }
    }
    if Doomed(d, b, policy) {
      var k :| k in d.bindings && d.bindings[k].inboundId == b && d.bindings[k].policyId == policy;
      assert k in t.bindings;
      forall j <- t.bindings | t.bindings[j].policyId == policy && t.bindings[j].inboundId != a
        ensures t.bindings[j].inboundId == b
      {
        assert j in d.bindings;
      }
    }
  }

  lemma OnlyForEither(t: Tables, a: int, b: int, policy: int)
    ensures OnlyFor(t, a, b, policy) == OnlyFor(t, b, a, policy)
  {
  }

  /** Two inbounds can be deleted in either order. */
  lemma DeletesCommute(t: Tables, a: int, b: int)
    ensures Deleted(Deleted(t, a), b) == Deleted(Deleted(t, b), a)
  {
    DeletedTwo(t, a, b);
    DeletedTwo(t, b, a);
    forall p ensures OnlyFor(t, a, b, p) == OnlyFor(t, b, a, p) { OnlyForEither(t, a, b, p); }
    var (x, y) := (Deleted(Deleted(t, a), b), Deleted(Deleted(t, b), a));
    assert x.policies == y.policies;
    assert x.rules == y.rules;
    assert x.bindings == y.bindings && x.inbounds == y.inbounds;
  }

  lemma DeletedTwo(t: Tables, a: int, b: int)
    ensures var d := Deleted(Deleted(t, a), b);
            && d.policies == (map p | p in t.policies && !OnlyFor(t, a, b, p) :: t.policies[p])
            && d.rules == (map r | r in t.rules && !OnlyFor(t, a, b, t.rules[r].policyId) :: t.rules[r])
  {
    forall p ensures OnlyFor(t, a, b, p) <==> Doomed(t, a, p) || Doomed(Deleted(t, a), b, p) {
      DoomedByTwo(t, a, b, p);
    }
  }

  // ---- the transaction ----

  predicate Rows(t: Tables, ids: seq<int>) {
    forall i | 0 <= i < |ids| :: ids[i] in t.bindings
  }

  /** The bindings of an inbound, in the order the database lists them. */
  predicate Lists(t: Tables, inbound: int, ids: seq<int>) {
    && Rows(t, ids)
    && (forall i | 0 <= i < |ids| :: t.bindings[ids[i]].inboundId == inbound)
    && (forall i, j | 0 <= i < j < |ids| :: ids[i] != ids[j])
    && (forall b <- t.bindings :: t.bindings[b].inboundId == inbound ==> b in ids)
  }

  /** The policy of one of the first `n` bindings listed, that can go. */
  predicate GoneSoFar(t: Tables, inbound: int, ids: seq<int>, n: nat, policy: int)
    requires n <= |ids| && Rows(t, ids)
  {
    Removable(t, inbound, policy) && exists i :: 0 <= i < n && t.bindings[ids[i]].policyId == policy
  }

  /** The tables after the first `n` bindings. */
  function Cleaned(t: Tables, inbound: int, ids: seq<int>, n: nat): Tables
    requires n <= |ids| && Rows(t, ids)
  {
    Tables(
      t.inbounds,
      map p | p in t.policies && !GoneSoFar(t, inbound, ids, n, p) :: t.policies[p],
      map r | r in t.rules && !GoneSoFar(t, inbound, ids, n, t.rules[r].policyId) :: t.rules[r],
      map b | b in t.bindings && b !in ids[..n] :: t.bindings[b])
  }

  lemma CleanedNone(t: Tables, inbound: int, ids: seq<int>)
    requires Rows(t, ids)
    ensures Cleaned(t, inbound, ids, 0) == t
  {
    var c := Cleaned(t, inbound, ids, 0);
    assert ids[..0] == [];
    assert forall p :: !GoneSoFar(t, inbound, ids, 0, p);
    assert c.policies == t.policies && c.rules == t.rules && c.bindings == t.bindings;
  }

  lemma CleanedAll(t: Tables, inbound: int, ids: seq<int>)
    requires Lists(t, inbound, ids)
    ensures var c := Cleaned(t, inbound, ids, |ids|);
            Deleted(t, inbound) == c.(inbounds := map i | i in t.inbounds && i != inbound :: t.inbounds[i])
  {
    var (c, d) := (Cleaned(t, inbound, ids, |ids|), Deleted(t, inbound));
    forall i | 0 <= i < |ids| ensures BoundTo(t, inbound, t.bindings[ids[i]].policyId) {
      var b := ids[i];
      assert t.bindings[b].inboundId == inbound;
    }
    forall p ensures GoneSoFar(t, inbound, ids, |ids|, p) <==> Doomed(t, inbound, p) {
      if Doomed(t, inbound, p) {
        var b :| b in t.bindings && t.bindings[b].inboundId == inbound && t.bindings[b].policyId == p;
        assert b in ids;
        var i :| 0 <= i < |ids| && ids[i] == b;
      }
    }
    assert ids[..|ids|] == ids;
    assert c.policies == d.policies && c.rules == d.rules;
    assert forall b <- t.bindings :: b in ids <==> t.bindings[b].inboundId == inbound;
    assert c.bindings == d.bindings;
  }

  lemma CleanedNext(t: Tables, inbound: int, ids: seq<int>, n: nat)
    requires Lists(t, inbound, ids) && n < |ids|
    ensures var (c, next) := (Cleaned(t, inbound, ids, n), Cleaned(t, inbound, ids, n + 1));
            var policy := t.bindings[ids[n]].policyId;
            && ids[n] in c.bindings && c.bindings[ids[n]] == t.bindings[ids[n]]
            && next.bindings == c.bindings - {ids[n]}
            && (BoundToOther(c, inbound, policy) <==> BoundToOther(t, inbound, policy))
            && (if policy in c.policies && Removable(t, inbound, policy)
                then next.policies == c.policies - {policy}
                     && next.rules == map r | r in c.rules && c.rules[r].policyId != policy :: c.rules[r]
                else next.policies == c.policies && next.rules == c.rules)
  {
    var (c, next) := (Cleaned(t, inbound, ids, n), Cleaned(t, inbound, ids, n + 1));
    var policy := t.bindings[ids[n]].policyId;
    assert ids[..n + 1] == ids[..n] + [ids[n]];
    forall p ensures GoneSoFar(t, inbound, ids, n + 1, p)
                     <==> GoneSoFar(t, inbound, ids, n, p) || (p == policy && Removable(t, inbound, p)) {}
    if BoundToOther(t, inbound, policy) {
      var b :| b in t.bindings && t.bindings[b].inboundId != inbound && t.bindings[b].policyId == policy;
      assert b in c.bindings;
    }
  }

  method Pick<T(==)>(s: set<T>) returns (x: T)
    requires s != {}
    ensures x in s
  {
    x :| x in s;
  }

  /** The database; its calls fail when and as it likes, here given by `faults`. */
  class Database {
    var inbounds: map<int, string>
    var policies: map<int, Policy>
    var rules: map<int, Rule>
    var bindings: map<int, Binding>
    var calls: nat
    const faults: set<nat>

    constructor (t: Tables, faults: set<nat>)
      ensures Value() == t && calls == 0 && this.faults == faults
    {
      inbounds, policies, rules, bindings := t.inbounds, t.policies, t.rules, t.bindings;
      calls, this.faults := 0, faults;
    }

    function Value(): Tables
      reads this
    {
      Tables(inbounds, policies, rules, bindings)
    }

    /** Every call from the `first` on has gone well so far. */
    predicate NoFaultsSince(first: nat)
      reads this`calls
    {
      forall k | first <= k < calls :: k !in faults
    }

    method Call() returns (ok: bool)
      modifies this`calls
      ensures calls == old(calls) + 1 && ok == (old(calls) !in faults)
    {
      ok := calls !in faults;
      calls := calls + 1;
    }

    /** The bindings of an inbound; some order is as good as another. */
    method FindBindings(inbound: int) returns (ids: seq<int>)
      ensures Lists(Value(), inbound, ids)
    {
      ids := [];
      var rest := bindings.Keys;
      while rest != {}
        invariant rest <= bindings.Keys
        invariant forall i | 0 <= i < |ids| ::
                    ids[i] in bindings && bindings[ids[i]].inboundId == inbound && ids[i] !in rest
        invariant forall i, j | 0 <= i < j < |ids| :: ids[i] != ids[j]
        invariant forall b <- bindings.Keys - rest :: bindings[b].inboundId == inbound ==> b in ids
      {
        var b := Pick(rest);
        if bindings[b].inboundId == inbound {
          ids := ids + [b];
        }
        rest := rest - {b};
      }
    }

    /** The bindings of a policy to other inbounds. */
    method OtherBindingCount(policy: int, inbound: int) returns (count: nat)
      ensures count > 0 <==> BoundToOther(Value(), inbound, policy)
    {
      var others := set b | b in bindings && bindings[b].policyId == policy && bindings[b].inboundId != inbound;
      count := |others|;
      assert count == 0 <==> others == {};
      if count > 0 {
        var b := Pick(others);
        assert BoundToOther(Value(), inbound, policy);
      } else {
        assert forall b <- bindings :: b !in others;
      }
    }

    /** What happens to one binding; on failure the caller rolls back. */
    method CleanupBinding(binding: int, inbound: int) returns (ok: bool)
      requires binding in bindings
      modifies this
      ensures inbounds == old(inbounds)
      ensures calls > old(calls) && (ok <==> NoFaultsSince(old(calls)))
      ensures ok ==>
                var policy := old(bindings[binding].policyId);
                && bindings == old(bindings) - {binding}
                && (if policy in old(policies) && IsManaged(old(policies)[policy].remark)
                       && !BoundToOther(old(Value()), inbound, policy)
                    then policies == old(policies) - {policy}
                         && rules == map r | r in old(rules) && old(rules)[r].policyId != policy :: old(rules)[r]
                    else policies == old(policies) && rules == old(rules))
    {
      var policy := bindings[binding].policyId;
      ok := Call();
      if !ok { return; }
      if policy !in policies || !IsManaged(policies[policy].remark) {
        ok := Call();
        bindings := bindings - {binding};
        return;
      }
      ok := Call();
      if !ok { return; }
      var count := OtherBindingCount(policy, inbound);
      ok := Call();
      if !ok { return; }
      bindings := bindings - {binding};
      if count > 0 {
        return;
      }
      ok := Call();
      if !ok { return; }
      rules := map r | r in rules && rules[r].policyId != policy :: rules[r];
      ok := Call();
      policies := policies - {policy};
    }

    method CleanupExecutionState(inbound: int) returns (ok: bool)
      modifies this
      ensures inbounds == old(inbounds)
      ensures calls > old(calls) && (ok <==> NoFaultsSince(old(calls)))
      ensures ok ==> Value().(inbounds := Deleted(old(Value()), inbound).inbounds) == Deleted(old(Value()), inbound)
    {
      ok := Call();
      if !ok { return; }
      ghost var t := Value();
      var ids := FindBindings(inbound);
      CleanedNone(t, inbound, ids);
      for i := 0 to |ids|
        invariant Value() == Cleaned(t, inbound, ids, i)
        invariant ok && calls > old(calls) && NoFaultsSince(old(calls))
      {
        CleanedNext(t, inbound, ids, i);
        ok := CleanupBinding(ids[i], inbound);
        if !ok { return; }
      }
      CleanedAll(t, inbound, ids);
    }

    /** All in one transaction: an error leaves the tables as they were, and comes only from a call that failed. */
    method DelInbound(inbound: int) returns (ok: bool)
      modifies this
      ensures ok <==> NoFaultsSince(old(calls))
      ensures faults == {} ==> ok && Value() == Deleted(old(Value()), inbound)
      ensures Value() == if ok then Deleted(old(Value()), inbound) else old(Value())
    {
      var saved := Value();
      ok := CleanupExecutionState(inbound);
      if ok {
        ok := Call();
        inbounds := map i | i in inbounds && i != inbound :: inbounds[i];
      }
      if !ok {
        inbounds, policies, rules, bindings := saved.inbounds, saved.policies, saved.rules, saved.bindings;
      }
    }
  }
}
