/** The nat table that cube-proxy writes, with the iptables operations it uses. */
module NatTable {

  import opened Options
  import opened Slices

  /** CUBE-SVC-<id> and CUBE-SVC-POD-<id> chains, and every chain not made by cube-proxy. */
  datatype Chain = Builtin(name: string) | Svc(id: nat) | SvcPod(id: nat)

  const SERVICE := Builtin("SERVICE")

  datatype Rule =
    | ServiceJump(to: Chain, ip: string, protocol: string, dport: int)
    | PodJump(to: Chain, percent: Option<nat>)
    | Dnat(protocol: string, ip: string, port: int)
    | Foreign(jump: Option<Chain>, text: string)

  type Table = map<Chain, seq<Rule>>

  function Target(r: Rule): Option<Chain> {
    match r
    case ServiceJump(to, _, _, _) => Some(to)
    case PodJump(to, _) => Some(to)
    case Dnat(_, _, _) => None
    case Foreign(jump, _) => jump
  }

  predicate Known(t: Table, r: Rule) {
    Target(r).Some? ==> Target(r).value in t
  }

  predicate Referenced(t: Table, c: Chain) {
    exists k :: k in t && RefersTo(t[k], c)
  }

  predicate RefersTo(rules: seq<Rule>, c: Chain) {
    exists r :: r in rules && Target(r) == Some(c)
  }

  lemma RemoveFirstLeaves(rules: seq<Rule>, r: Rule)
    ensures multiset(RemoveFirst(rules, r)) == multiset(rules) - multiset{r}
    ensures forall x :: x in RemoveFirst(rules, r) ==> x in rules
    ensures multiset(rules)[r] == 1 ==> r !in RemoveFirst(rules, r)
  {
    RemoveFirstCounts(rules, r);
    assert forall x :: x in RemoveFirst(rules, r) <==> x in multiset(RemoveFirst(rules, r));
    assert forall x :: x in rules <==> x in multiset(rules);
  }

  lemma {:induction false} RemoveFirstBehind(front: seq<Rule>, r: Rule, back: seq<Rule>)
    requires r !in front
    ensures RemoveFirst(front + [r] + back, r) == front + back
  {
    if front == [] {
      assert front + [r] + back == [r] + back && front + back == back;
    } else {
      RemoveFirstBehind(front[1..], r, back);
      assert (front + [r] + back)[1..] == front[1..] + [r] + back;
      assert front + back == [front[0]] + (front[1..] + back);
    }
  }

  /** Chain names come from fresh UUIDs; a finite table always leaves one unused. */
  ghost function Bound(chains: set<Chain>): (n: nat)
    ensures forall c :: c in chains && !c.Builtin? ==> c.id < n
  {
    if chains == {} then 0
    else
      var c :| c in chains;
      var n := Bound(chains - {c});
      assert forall d :: d in chains ==> d == c || d in chains - {c};
      if c.Builtin? || c.id < n then n else c.id + 1
  }

  class IPTables {
    var table: Table

    constructor (table: Table)
      ensures this.table == table
    {
      this.table := table;
    }

    method NewUuid() returns (id: nat)
      ensures Svc(id) !in table && SvcPod(id) !in table
    {
      assert Svc(Bound(table.Keys)) !in table.Keys && SvcPod(Bound(table.Keys)) !in table.Keys;
      id :| Svc(id) !in table && SvcPod(id) !in table;
    }

    method NewChain(c: Chain) returns (ok: bool)
      modifies this
      ensures ok <==> c !in old(table)
      ensures table == if ok then old(table)[c := []] else old(table)
    {
      ok := c !in table;
      if ok {
        table := table[c := []];
      }
    }

    /** -I chain 1: in front of every other rule. */
    method Insert(c: Chain, r: Rule) returns (ok: bool)
      modifies this
      ensures ok <==> c in old(table) && Known(old(table), r)
      ensures table == if ok then old(table)[c := [r] + old(table)[c]] else old(table)
    {
      ok := c in table && Known(table, r);
      if ok {
        table := table[c := [r] + table[c]];
      }
    }

    method Append(c: Chain, r: Rule) returns (ok: bool)
      modifies this
      ensures ok <==> c in old(table) && Known(old(table), r)
      ensures table == if ok then old(table)[c := old(table)[c] + [r]] else old(table)
    {
      ok := c in table && Known(table, r);
      if ok {
        table := table[c := table[c] + [r]];
      }
    }

    /** -D removes the first matching rule; a missing chain or rule counts as already deleted. */
    method DeleteIfExists(c: Chain, r: Rule)
      modifies this
      ensures table == if c in old(table) then old(table)[c := RemoveFirst(old(table)[c], r)] else old(table)
    {
      if c in table && r in table[c] {
        table := table[c := RemoveFirst(table[c], r)];
      } else if c in table {
        AbsentIsNotRemoved(table[c], r);
      }
    }

    /** -F then -X: flushing always works, deleting fails while some rule jumps to the chain. */
    method ClearAndDeleteChain(c: Chain) returns (ok: bool)
      modifies this
      ensures c !in old(table) ==> ok && table == old(table)
      ensures c in old(table) ==> (ok <==> !Referenced(old(table)[c := []], c))
      ensures c in old(table) ==> table == if ok then old(table) - {c} else old(table)[c := []]
    {
      if c !in table {
        return true;
      }
      table := table[c := []];
      ok := !(exists k :: k in table && exists r :: r in table[k] && Target(r) == Some(c));
      if ok {
        table := table - {c};
      }
    }
  }
}
