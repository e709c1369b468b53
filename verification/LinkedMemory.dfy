/** Intrusive singly linked lists in memory: addresses are numbers, 0 is null. */
module LinkedMemory {
  import opened Lists

  type Address = nat
  type Item = int

  datatype Node = Node(data: Item, next: Address)

  function SetNext(m: map<Address, Node>, a: Address, next: Address): map<Address, Node>
    requires a in m
  {
    m[a := m[a].(next := next)]
  }

  /** The items at a sequence of nodes. */
  function Data(m: map<Address, Node>, nodes: seq<Address>): (r: seq<Item>)
    ensures |r| == |nodes|
  {
    if nodes == [] then [] else [if nodes[0] in m then m[nodes[0]].data else 0] + Data(m, nodes[1..])
  }

  /** `nodes` are the nodes of the null-terminated list that starts at `a`. */
  predicate IsList(m: map<Address, Node>, a: Address, nodes: seq<Address>)
    decreases |nodes|
  {
    if nodes == [] then a == 0
    else a == nodes[0] && a != 0 && a in m && IsList(m, m[a].next, nodes[1..])
  }

  ghost predicate AgreeOn(m: map<Address, Node>, n: map<Address, Node>, nodes: seq<Address>) {
    forall x | x in nodes :: x in m && x in n && m[x] == n[x]
  }

  lemma {:induction false} ListKept(m: map<Address, Node>, n: map<Address, Node>, a: Address, nodes: seq<Address>)
    requires IsList(m, a, nodes) && AgreeOn(m, n, nodes)
    ensures IsList(n, a, nodes)
    decreases |nodes|
  {
    if nodes == [] {
    } else {
      assert forall x | x in nodes[1..] :: x in nodes;
      ListKept(m, n, m[a].next, nodes[1..]);
    }
  }

  lemma {:induction false} DataKept(m: map<Address, Node>, n: map<Address, Node>, nodes: seq<Address>)
    requires forall x | x in nodes :: x in m && x in n && m[x].data == n[x].data
    ensures Data(m, nodes) == Data(n, nodes)
    decreases |nodes|
  {
    if nodes == [] {
    } else {
      assert forall x | x in nodes[1..] :: x in nodes;
      DataKept(m, n, nodes[1..]);
    }
  }

  lemma {:induction false} DataConcat(m: map<Address, Node>, nodes: seq<Address>, more: seq<Address>)
    ensures Data(m, nodes + more) == Data(m, nodes) + Data(m, more)
  {
    if nodes == [] {
      assert nodes + more == more;
    } else {
      DataConcat(m, nodes[1..], more);
      assert (nodes + more)[1..] == nodes[1..] + more;
    }
  }

  lemma {:induction false} DataReverse(m: map<Address, Node>, nodes: seq<Address>)
    ensures Data(m, Reverse(nodes)) == Reverse(Data(m, nodes))
  {
    if nodes == [] {
    } else {
      DataReverse(m, nodes[1..]);
      DataConcat(m, Reverse(nodes[1..]), [nodes[0]]);
      assert Data(m, [nodes[0]]) == [Data(m, nodes)[0]];
      assert Data(m, nodes)[1..] == Data(m, nodes[1..]);
    }
  }

  lemma {:induction false} ListMembers(m: map<Address, Node>, a: Address, nodes: seq<Address>)
    requires IsList(m, a, nodes)
    ensures forall x | x in nodes :: x in m && x != 0
    decreases |nodes|
  {
    if nodes == [] {
    } else {
      ListMembers(m, m[a].next, nodes[1..]);
      assert nodes == [nodes[0]] + nodes[1..];
    }
  }

  lemma {:induction false} ReverseMembers<T>(s: seq<T>)
    ensures forall x :: x in Reverse(s) <==> x in s
  {
    if s == [] {
    } else {
      ReverseMembers(s[1..]);
      assert s == [s[0]] + s[1..];
    }
  }

  lemma {:induction false} OneList(m: map<Address, Node>, a: Address, nodes: seq<Address>, others: seq<Address>)
    requires IsList(m, a, nodes) && IsList(m, a, others)
    ensures nodes == others
    decreases |nodes|
  {
    if nodes == [] || others == [] {
    } else {
      OneList(m, m[a].next, nodes[1..], others[1..]);
      assert nodes == [nodes[0]] + nodes[1..] && others == [others[0]] + others[1..];
    }
  }

  lemma ListCons(m: map<Address, Node>, a: Address, nodes: seq<Address>)
    requires a in m && a != 0 && IsList(m, m[a].next, nodes)
    ensures IsList(m, a, [a] + nodes)
  {
    assert ([a] + nodes)[1..] == nodes;
  }

  /** Freeing the first node of a list. */
  lemma ListTail(m: map<Address, Node>, a: Address, nodes: seq<Address>)
    requires IsList(m, a, nodes) && nodes != [] && a !in nodes[1..]
    ensures a == nodes[0] && a in m && IsList(m - {a}, m[a].next, nodes[1..])
  {
    ListMembers(m, m[a].next, nodes[1..]);
    ListKept(m, m - {a}, m[a].next, nodes[1..]);
  }
}
