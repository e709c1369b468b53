/** `Stack` as an object used by one thread at a time: pushes, the sweeps with the in-place reversal, and `steal`. */
module StackObjects {
  import opened Lists

  type Item = int

  class Node {
    const data: Item
    var next: Node?

    constructor (data: Item)
      ensures this.data == data && next == null
    {
      this.data := data;
      next := null;
    }
  }

  ghost predicate Links(nodes: seq<Node>, i: nat)
    requires i < |nodes|
    reads nodes
  {
    nodes[i].next == if i + 1 < |nodes| then nodes[i + 1] else null
  }

  /** The list that starts at `head`, in order, null-terminated. */
  ghost predicate Listed(head: Node?, nodes: seq<Node>)
    reads nodes
  {
    && head == (if nodes == [] then null else nodes[0])
    && forall i: nat :: i < |nodes| ==> Links(nodes, i)
  }

  function Data(nodes: seq<Node>): (r: seq<Item>)
    ensures |r| == |nodes|
    ensures forall i :: 0 <= i < |nodes| ==> r[i] == nodes[i].data
  {
    seq(|nodes|, i requires 0 <= i < |nodes| => nodes[i].data)
  }

  lemma TailListed(head: Node, nodes: seq<Node>)
    requires Listed(head, nodes) && Distinct(nodes)
    ensures nodes != [] && Listed(head.next, nodes[1..]) && Distinct(nodes[1..]) && head !in nodes[1..]
  {
    assert Links(nodes, 0);
    forall i: nat | i < |nodes[1..]| ensures Links(nodes[1..], i) {
      assert Links(nodes, i + 1);
    }
  }

  lemma {:induction false} ReverseAt<T>(s: seq<T>, k: nat)
    requires k < |s|
    ensures Reverse(s)[k] == s[|s| - 1 - k]
    decreases |s|
  {
    var front := Reverse(s[1..]);
    assert Reverse(s) == front + [s[0]];
    if k == |s| - 1 {
    } else {
      ReverseAt(s[1..], k);
      assert (front + [s[0]])[k] == front[k];
    }
  }

  lemma DataReverse(nodes: seq<Node>)
    ensures Data(Reverse(nodes)) == Reverse(Data(nodes))
  {
    forall k | 0 <= k < |nodes| ensures Data(Reverse(nodes))[k] == Reverse(Data(nodes))[k] {
      ReverseAt(nodes, k);
      ReverseAt(Data(nodes), k);
    }
  }

  /** One turn of the reversal: the node goes in front of those turned before it. */
  method Turn(cur: Node, prev: Node?, ghost rest: seq<Node>, ghost done: seq<Node>) returns (next: Node?)
    requires Listed(cur, rest) && Distinct(rest) && Listed(prev, done) && forall x | x in done :: x !in rest
    modifies cur
    ensures rest != [] && cur == rest[0] && Listed(next, rest[1..]) && Listed(cur, [cur] + done)
  {
    TailListed(cur, rest);
    next := cur.next;
    assert cur in rest && cur !in done;
    cur.next := prev;
    forall i: nat | i < |rest[1..]| ensures Links(rest[1..], i) {
      assert old(Links(rest[1..], i));
    }
    forall i: nat | i < |[cur] + done| ensures Links([cur] + done, i) {
      if i > 0 {
        assert old(Links(done, i - 1));
      }
    }
  }

  /** The reversal loop of `sweep_ordered`. */
  method ReverseInPlace(first: Node?, ghost nodes: seq<Node>) returns (head: Node?)
    requires Listed(first, nodes) && Distinct(nodes)
    modifies nodes
    ensures Listed(head, Reverse(nodes))
  {
    var cur := first;
    head := null;
    ghost var rest: seq<Node>, done: seq<Node> := nodes, [];
    while cur != null
      invariant Listed(cur, rest) && Listed(head, done)
      invariant Distinct(rest) && (forall x | x in rest :: x in nodes) && (forall x | x in done :: x !in rest)
      invariant Reverse(nodes) == Reverse(rest) + done
      decreases |rest|
    {
      TailListed(cur, rest);
      assert rest == [cur] + rest[1..];
      assert cur in rest;
      ConcatAssociates(Reverse(rest[1..]), [cur], done);
      var next := Turn(cur, head, rest, done);
      rest, done := rest[1..], [cur] + done;
      head, cur := cur, next;
    }
    assert [] + done == done;
  }

  /** The delivering loop of both sweeps: every item in list order, every node freed. */
  method Deliver(first: Node?, ghost nodes: seq<Node>) returns (delivered: seq<Item>)
    requires Listed(first, nodes) && Distinct(nodes)
    ensures delivered == Data(nodes)
  {
    var cur := first;
    delivered := [];
    ghost var rest := nodes;
    while cur != null
      invariant Listed(cur, rest) && Distinct(rest)
      invariant delivered + Data(rest) == Data(nodes)
      decreases |rest|
    {
      TailListed(cur, rest);
      assert Data(rest) == [cur.data] + Data(rest[1..]);
      ConcatAssociates(delivered, [cur.data], Data(rest[1..]));
      delivered := delivered + [cur.data];
      cur := cur.next;
      rest := rest[1..];
    }
    assert delivered + [] == delivered;
  }

  lemma DistinctReverse<T>(s: seq<T>)
    requires Distinct(s)
    ensures Distinct(Reverse(s))
  {
    forall i, j | 0 <= i < j < |s| ensures Reverse(s)[i] != Reverse(s)[j] {
      ReverseAt(s, i);
      ReverseAt(s, j);
    }
  }

  class Stack {
    var head: Node?
    ghost var nodes: seq<Node>

    ghost predicate Valid()
      reads this, nodes
    {
      Listed(head, nodes) && Distinct(nodes)
    }

    /** The items, newest first. */
    ghost function Items(): seq<Item>
      reads this, nodes
    {
      Data(nodes)
    }

    constructor ()
      ensures Valid() && Items() == []
    {
      head, nodes := null, [];
    }

    /** The answer says whether the stack was empty. */
    method Push(data: Item) returns (wasEmpty: bool)
      requires Valid()
      modifies this
      ensures Valid() && fresh(set x | x in nodes && x !in old(nodes))
      ensures Items() == [data] + old(Items())
      ensures wasEmpty <==> old(Items()) == []
    {
      var node := new Node(data);
      node.next := head;
      wasEmpty := node.next == null;
      head, nodes := node, [node] + nodes;
      forall i: nat | i < |nodes| ensures Links(nodes, i) {
        if i > 0 {
          assert old(Links(nodes, i - 1));
          assert nodes[i] == old(nodes)[i - 1];
        }
      }
    }

    /** `steel_head`. */
    method TakeAll() returns (first: Node?)
      requires Valid()
      modifies this
      ensures Valid() && Items() == [] && Listed(first, old(nodes))
    {
      first := head;
      head, nodes := null, [];
    }

    method Sweep() returns (any: bool, delivered: seq<Item>)
      requires Valid()
      modifies this
      ensures Valid() && Items() == []
      ensures delivered == old(Items()) && (any <==> delivered != [])
    {
      ghost var taken := nodes;
      var first := TakeAll();
      delivered := [];
      any := first != null;
      if any {
        delivered := Deliver(first, taken);
      }
    }

    /** Oldest first. */
    method SweepOrdered() returns (any: bool, delivered: seq<Item>)
      requires Valid()
      modifies this, nodes
      ensures Valid() && Items() == []
      ensures delivered == Reverse(old(Items())) && (any <==> delivered != [])
    {
      ghost var taken := nodes;
      DataReverse(taken);
      DistinctReverse(taken);
      var first := TakeAll();
      delivered := [];
      any := first != null;
      if any {
        var last := ReverseInPlace(first, taken);
        delivered := Deliver(last, Reverse(taken));
      }
    }

    /** A `std::stack` whose top, the last element, is the oldest item. */
    method Steal() returns (result: seq<Item>)
      requires Valid()
      modifies this
      ensures Valid() && Items() == [] && result == old(Items())
    {
      ghost var taken := nodes;
      var first := TakeAll();
      result := Deliver(first, taken);
    }

    /** The constructor from a `std::stack` pops the top and pushes it, so that `FromStack(Steal())` restores the order. */
    constructor FromStack(data: seq<Item>)
      ensures Valid() && Items() == data
    {
      head, nodes := null, [];
      new;
      var left := data;
      while left != []
        invariant Valid() && left + Items() == data
        invariant fresh(this) && fresh(set x | x in nodes)
        decreases |left|
      {
        var top := left[|left| - 1];
        left := left[..|left| - 1];
        var _ := Push(top);
      }
    }
  }

  /** A stack stolen into a `std::stack` and built again from it has the same items in the same order. */
  method Rebuild(s: Stack) returns (t: Stack)
    requires s.Valid()
    modifies s
    ensures s.Valid() && s.Items() == []
    ensures t.Valid() && fresh(t) && t.Items() == old(s.Items())
  {
    var stolen := s.Steal();
    t := new Stack.FromStack(stolen);
  }
}
