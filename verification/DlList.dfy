/** The doubly linked list template: nodes linked in place, refining a sequence of values. */
module DlList {
  import opened Common

  function Inserted<T>(s: seq<T>, index: nat, value: T): seq<T>
    requires index <= |s|
  {
    s[..index] + [value] + s[index..]
  }

  function Removed<T>(s: seq<T>, index: nat): seq<T>
    requires index < |s|
  {
    s[..index] + s[index + 1..]
  }

  function Reversed<T>(s: seq<T>): seq<T> {
    if s == [] then [] else Reversed(s[1..]) + [s[0]]
  }

  /** Inserting and then removing at the same index gives the sequence back, and the value. */
  lemma InsertRemove<T>(s: seq<T>, index: nat, value: T)
    requires index <= |s|
    ensures Removed(Inserted(s, index, value), index) == s
    ensures Inserted(s, index, value)[index] == value
  {
    var t := Inserted(s, index, value);
    assert t[..index] == s[..index] && t[index + 1..] == s[index..];
    assert s[..index] + s[index..] == s;
  }

  /** Removing and then inserting what was removed gives the sequence back. */
  lemma RemoveInsert<T>(s: seq<T>, index: nat)
    requires index < |s|
    ensures Inserted(Removed(s, index), index, s[index]) == s
  {
    var t := Removed(s, index);
    assert t[..index] == s[..index] && t[index..] == s[index + 1..];
    assert s == s[..index] + [s[index]] + s[index + 1..];
  }

  lemma InsertedEnds<T>(s: seq<T>, value: T)
    ensures Inserted(s, 0, value) == [value] + s && Inserted(s, |s|, value) == s + [value]
  {
  }

  class Node<T> {
    var data: T
    var next: Node?<T>
    var prev: Node?<T>

    constructor (data: T)
      ensures this.data == data && next == null && prev == null
    {
      this.data, next, prev := data, null, null;
    }
  }

  class List<T> {
    var head: Node?<T>
    var tail: Node?<T>
    /** The value `(Type){0}`. */
    const zero: T
    /** The nodes from head to tail. */
    ghost var nodes: seq<Node<T>>

    constructor (zero: T)
      ensures Valid() && Values() == [] && this.zero == zero
    {
      head, tail, this.zero := null, null, zero;
      nodes := [];
    }

    ghost function At(i: int): Node?<T>
      reads this
    {
      if 0 <= i < |nodes| then nodes[i] else null
    }

    /** Node `i` points to its neighbours, forwards and backwards. */
    ghost predicate LinkedAt(i: nat)
      requires i < |nodes|
      reads this, nodes
    {
      nodes[i].next == At(i + 1) && nodes[i].prev == At(i - 1)
    }

    /** `next` and `prev` are mirror images along distinct nodes, null at both ends. */
    ghost predicate Valid()
      reads this, nodes
    {
      && head == At(0) && tail == At(|nodes| - 1)
      && (forall i, j :: 0 <= i < j < |nodes| ==> nodes[i] != nodes[j])
      && forall i :: 0 <= i < |nodes| ==> LinkedAt(i)
    }

    /** One end is set and the other is not: every operation refuses such a list. */
    predicate Malformed()
      reads this
    {
      (head == null) != (tail == null)
    }

    ghost function Values(): (s: seq<T>)
      reads this, nodes
      ensures |s| == |nodes| && forall i :: 0 <= i < |s| ==> s[i] == nodes[i].data
    {
      seq(|nodes|, i requires 0 <= i < |nodes| reads this, nodes => nodes[i].data)
    }

    method IsEmpty() returns (code: int)
      requires Malformed() || Valid()
      ensures code == if Malformed() then -1 else if nodes == [] then 1 else 0
    {
      if (head != null && tail == null) || (head == null && tail != null) {
        return -1;
      } else if head != null && tail != null {
        return 0;
      }
      return 1;
    }

    /** `available` is the outcome of the allocation. */
    method PushBack(value: T, available: bool) returns (code: int)
      requires Malformed() || Valid()
      modifies this, nodes
      ensures code == if !available then 2 else if old(Malformed()) then 1 else 0
      ensures code != 0 ==> unchanged(this) && forall n <- nodes :: unchanged(n)
      ensures code == 0 ==> Valid() && Values() == old(Values()) + [value]
      ensures code == 0 ==> |nodes| == |old(nodes)| + 1 && nodes[..|nodes| - 1] == old(nodes) && fresh(nodes[|nodes| - 1])
    {
      if !available {
        return 2;
      }
      var node := new Node(value);
      var empty := IsEmpty();
      if empty == -1 {
        return 1;
      } else if empty == 0 {
        node.prev := tail;
        tail.next := node;
        tail := node;
      } else {
        head := node;
        tail := node;
      }
      nodes := nodes + [node];
      forall i | 0 <= i < |nodes| ensures LinkedAt(i) {
        if i < |old(nodes)| {
          assert old(LinkedAt(i));
        }
      }
      return 0;
    }

    method PushFront(value: T, available: bool) returns (code: int)
      requires Malformed() || Valid()
      modifies this, nodes
      ensures code == if !available then 2 else if old(Malformed()) then 1 else 0
      ensures code != 0 ==> unchanged(this) && forall n <- nodes :: unchanged(n)
      ensures code == 0 ==> Valid() && Values() == [value] + old(Values())
      ensures code == 0 ==> |nodes| == |old(nodes)| + 1 && nodes[1..] == old(nodes) && fresh(nodes[0])
    {
      if !available {
        return 2;
      }
      var node := new Node(value);
      var empty := IsEmpty();
      if empty == -1 {
        return 1;
      } else if empty == 0 {
        node.next := head;
        head.prev := node;
        head := node;
      } else {
        head := node;
        tail := node;
      }
      nodes := [node] + nodes;
      forall i | 0 <= i < |nodes| ensures LinkedAt(i) {
        if i > 0 {
          assert old(LinkedAt(i - 1));
        }
      }
      return 0;
    }

    method PopFront() returns (value: T, err: int)
      requires Malformed() || Valid()
      modifies this, nodes
      ensures err == if old(Malformed()) || old(nodes) == [] then 1 else 0
      ensures err == 1 ==> value == zero && unchanged(this) && forall n <- nodes :: unchanged(n)
      ensures err == 0 ==> Valid() && value == old(Values())[0] && Values() == old(Values())[1..]
      ensures err == 0 ==> nodes == old(nodes)[1..]
    {
      var empty := IsEmpty();
      if empty != 0 {
        return zero, 1;
      }
      value, err := head.data, 0;
      assert LinkedAt(0);
      if head == tail {
        head := null;
        tail := null;
      } else {
        head := head.next;
        head.prev := null;
      }
      nodes := nodes[1..];
      forall i | 0 <= i < |nodes| ensures LinkedAt(i) {
        assert old(LinkedAt(i + 1));
      }
    }

    /** The last node is found by walking from the head, although it has a `prev`. */
    method PopBack() returns (value: T, err: int)
      requires Malformed() || Valid()
      modifies this, nodes
      ensures err == if old(Malformed()) || old(nodes) == [] then 1 else 0
      ensures err == 1 ==> value == zero && unchanged(this) && forall n <- nodes :: unchanged(n)
      ensures err == 0 ==> Valid() && old(Values()) == Values() + [value]
      ensures err == 0 ==> nodes == old(nodes)[..|old(nodes)| - 1]
    {
      var empty := IsEmpty();
      if empty != 0 {
        return zero, 1;
      }
      err := 0;
      if head == tail {
        value := head.data;
        head := null;
        tail := null;
      } else {
        var temp := head;
        ghost var k := 0;
        while temp.next != tail
          invariant 0 <= k < |nodes| - 1 && temp == nodes[k]
          decreases |nodes| - k
        {
          assert LinkedAt(k) && LinkedAt(k + 1);
          temp, k := temp.next, k + 1;
        }
        assert LinkedAt(k);
        value := temp.next.data;
        temp.next := null;
        tail := temp;
      }
      nodes := nodes[..|nodes| - 1];
      forall i | 0 <= i < |nodes| ensures LinkedAt(i) {
        assert old(LinkedAt(i));
      }
    }

    method Size() returns (size: int)
      requires Malformed() || Valid()
      ensures size == if Malformed() then -1 else |nodes|
    {
      if (head != null && tail == null) || (head == null && tail != null) {
        return -1;
      }
      if head == null {
        return 0;
      } else if head == tail {
        return 1;
      }
      var ptr := head;
      size := 1;
      while ptr != tail
        invariant 1 <= size <= |nodes| && ptr == nodes[size - 1]
        decreases |nodes| - size
      {
        assert LinkedAt(size - 1);
        size := size + 1;
        ptr := ptr.next;
      }
    }

    /** The first `index` links from the head, as three operations walk them. */
    method Walk(index: nat) returns (ptr: Node<T>)
      requires Valid() && index < |nodes|
      ensures ptr == nodes[index]
    {
      ptr := head;
      for i := 0 to index
        invariant ptr == nodes[i]
      {
        assert LinkedAt(i);
        ptr := ptr.next;
      }
    }

    method NodeAt(index: nat) returns (node: Node?<T>, err: int)
      requires index < U32 && (Malformed() || (Valid() && |nodes| < 0x8000_0000))
      ensures err == if Malformed() || index >= |nodes| then 1 else 0
      ensures node == if err == 1 then null else nodes[index]
    {
      var size := Size();
      if size == -1 || index >= size {
        return null, 1;
      }
      node := Walk(index);
      err := 0;
    }

    method Get(index: nat) returns (value: T, err: int)
      requires index < U32 && (Malformed() || (Valid() && |nodes| < 0x8000_0000))
      ensures err == if Malformed() || index >= |nodes| then 1 else 0
      ensures value == if err == 1 then zero else Values()[index]
    {
      var node, e := NodeAt(index);
      err := e;
      value := if node == null then zero else node.data;
    }

    method Insert(index: nat, value: T, available: bool) returns (code: int)
      requires index < U32 && (Malformed() || (Valid() && |nodes| < 0x8000_0000))
      modifies this, nodes
      ensures code == if old(Malformed()) || index > |old(nodes)| then 1 else if !available then 2 else 0
      ensures code != 0 ==> unchanged(this) && forall n <- nodes :: unchanged(n)
      ensures code == 0 ==> Valid() && Values() == Inserted(old(Values()), index, value)
    {
      var size := Size();
      if size == -1 || index > size {
        return 1;
      }
      InsertedEnds(Values(), value);
      if index == 0 {
        code := PushFront(value, available);
        return;
      } else if index == size {
        code := PushBack(value, available);
        return;
      }
      if !available {
        return 2;
      }
      code := InsertInside(index, value);
    }

    /** Node `i` as it is linked once `node` stands between nodes `index - 1` and `index`. */
    ghost predicate SplicedAt(i: nat, index: nat, node: Node<T>)
      requires i < |nodes|
      reads this, nodes
    {
      && nodes[i].next == (if i == index - 1 then node else At(i + 1))
      && nodes[i].prev == (if i == index then node else At(i - 1))
    }

    /** The four links of an insertion. */
    method LinkIn(ghost index: nat, ptr: Node<T>, node: Node<T>)
      requires Valid() && 0 < index < |nodes| && ptr == nodes[index - 1] && node !in nodes
      modifies nodes, node
      ensures node.data == old(node.data) && forall n <- nodes :: n.data == old(n.data)
      ensures node.next == nodes[index] && node.prev == nodes[index - 1]
      ensures forall i :: 0 <= i < |nodes| ==> SplicedAt(i, index, node)
    {
      assert LinkedAt(index - 1) && LinkedAt(index);
      node.next := ptr.next;
      node.prev := ptr;
      ptr.next.prev := node;
      ptr.next := node;
      forall i | 0 <= i < |nodes| ensures SplicedAt(i, index, node) {
        assert old(LinkedAt(i));
      }
    }

    ghost method Adopt(index: nat, node: Node<T>)
      requires head == At(0) && tail == At(|nodes| - 1) && 0 < index < |nodes|
      requires node !in nodes && forall i, j :: 0 <= i < j < |nodes| ==> nodes[i] != nodes[j]
      requires node.next == nodes[index] && node.prev == nodes[index - 1]
      requires forall i :: 0 <= i < |nodes| ==> SplicedAt(i, index, node)
      modifies this`nodes
      ensures nodes == Inserted(old(nodes), index, node) && Valid()
      ensures Values() == Inserted(old(Values()), index, node.data)
    {
      nodes := Inserted(nodes, index, node);
      forall i | 0 <= i < |nodes| ensures LinkedAt(i) {
        if i != index {
          assert old(SplicedAt(if i < index then i else i - 1, index, node));
        }
      }
    }

    /** Insertion between two nodes. */
    method InsertInside(index: nat, value: T) returns (code: int)
      requires Valid() && 0 < index < |nodes|
      modifies this, nodes
      ensures code == 0 && Valid() && Values() == Inserted(old(Values()), index, value)
    {
      var ptr := Walk(index - 1);
      var node := new Node(value);
      LinkIn(index, ptr, node);
      assert Values() == old(Values());
      Adopt(index, node);
      return 0;
    }

    method Remove(index: nat) returns (value: T, err: int)
      requires index < U32 && (Malformed() || (Valid() && |nodes| < 0x8000_0000))
      modifies this, nodes
      ensures err == if old(Malformed()) || index >= |old(nodes)| then 1 else 0
      ensures err == 1 ==> value == zero && unchanged(this) && forall n <- nodes :: unchanged(n)
      ensures err == 0 ==> Valid() && value == old(Values())[index] && Values() == Removed(old(Values()), index)
    {
      if index == 0 {
        value, err := PopFront();
        return;
      }
      var size := Size();
      if index == (size - 1) % U32 {
        value, err := PopBack();
        return;
      }
      if size == -1 || index >= size {
        return zero, 1;
      }
      value := RemoveInside(index);
      err := 0;
    }

    method RemoveInside(index: nat) returns (value: T)
      requires Valid() && 0 < index < |nodes| - 1
      modifies this, nodes
      ensures Valid() && value == old(Values())[index] && Values() == Removed(old(Values()), index)
    {
      var ptr := Walk(index - 1);
      assert LinkedAt(index - 1);
      value := ptr.next.data;
      Unlink(index, ptr);
    }

    /** `ptr` is the node before the one that goes. */
    method Unlink(ghost index: nat, ptr: Node<T>)
      requires Valid() && 0 < index < |nodes| - 1 && ptr == nodes[index - 1]
      modifies this, nodes
      ensures Valid() && Values() == Removed(old(Values()), index) && nodes == Removed(old(nodes), index)
    {
      assert LinkedAt(index - 1) && LinkedAt(index) && LinkedAt(index + 1);
      ptr.next := ptr.next.next;
      ptr.next.prev := ptr;
      nodes := Removed(nodes, index);
      forall i | 0 <= i < |nodes| ensures nodes[i] == old(nodes[if i < index then i else i + 1]) {
      }
      forall i | 0 <= i < |nodes| ensures LinkedAt(i) {
        assert old(LinkedAt(if i < index then i else i + 1));
      }
      forall i | 0 <= i < |nodes| ensures Values()[i] == Removed(old(Values()), index)[i] {
      }
    }

    /** Removal by node: an interior node's value is not returned, the zero value is. */
    method RemoveNode(node: Node?<T>, ghost index: nat) returns (value: T, err: int)
      requires Malformed() || (Valid() && node == At(index) && (nodes == [] || index < |nodes|))
      modifies this, nodes
      ensures err == if old(Malformed()) || old(nodes) == [] then 1 else 0
      ensures err == 1 ==> value == zero && unchanged(this) && forall n <- nodes :: unchanged(n)
      ensures err == 0 ==> Valid() && Values() == Removed(old(Values()), index)
      ensures err == 0 ==>
        value == if index == 0 || index == |old(nodes)| - 1 then old(Values())[index] else zero
    {
      if node == head {
        value, err := PopFront();
        return;
      }
      if node == tail {
        value, err := PopBack();
        return;
      }
      if (head != null && tail == null) || (head == null && tail != null) {
        return zero, 1;
      }
      var ptr := head;
      ghost var k := 0;
      while ptr != null && ptr.next != node
        invariant 0 <= k < index < |nodes| - 1 && ptr == nodes[k]
        decreases |nodes| - k
      {
        assert LinkedAt(k) && k + 1 != index;
        ptr, k := ptr.next, k + 1;
      }
      assert LinkedAt(k);
      Unlink(index, ptr);
      return zero, 0;
    }

    /** Popping until it fails: it stops, and the list is empty. */
    method Clear()
      requires Malformed() || Valid()
      modifies this, nodes
      ensures old(Malformed()) ==> unchanged(this) && forall n <- nodes :: unchanged(n)
      ensures !old(Malformed()) ==> Valid() && Values() == []
    {
      var value, err := PopBack();
      while err == 0
        invariant old(Malformed()) ==> err == 1 && unchanged(this) && forall n <- nodes :: unchanged(n)
        invariant !old(Malformed()) ==> Valid() && nodes <= old(nodes) && (err == 0 || nodes == [])
        decreases 1 - err, |nodes|
      {
        value, err := PopBack();
      }
    }

    /** What `list_display` hands to its callback, in order. */
    method Display() returns (seen: seq<T>)
      requires Malformed() || Valid()
      ensures seen == if Malformed() then [] else Values()
    {
      seen := [];
      if head == null || tail == null {
        return;
      }
      var ptr := head;
      ghost var k := 0;
      while ptr != null
        invariant 0 <= k <= |nodes| && ptr == At(k) && seen == Values()[..k]
        decreases |nodes| - k
      {
        assert LinkedAt(k);
        seen, ptr, k := seen + [ptr.data], ptr.next, k + 1;
      }
    }

    /** Following `prev` from the tail shows the same values backwards. */
    method DisplayReverse() returns (seen: seq<T>)
      requires Malformed() || Valid()
      ensures seen == if Malformed() then [] else Reversed(Values())
    {
      seen := [];
      if head == null || tail == null {
        return;
      }
      var ptr := tail;
      ghost var k := |nodes|;
      while ptr != null
        invariant 0 <= k <= |nodes| && ptr == At(k - 1) && seen == Reversed(Values()[k..])
        decreases k
      {
        assert LinkedAt(k - 1);
        assert Values()[k - 1..][1..] == Values()[k..];
        seen, ptr, k := seen + [ptr.data], ptr.prev, k - 1;
      }
    }
  }
}
