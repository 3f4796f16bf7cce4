/** The doubly linked list of call and return nodes that the search lifts operations out of. */
module LinkedEntries {
  import opened Linearizability

  datatype Value<+I, +O> = Nil | Input(input: I) | Output(output: O)

  class Node<I, O> {
    const value: Value<I, O>
    /** The node of the matching return; null in return nodes. */
    const partner: Node?<I, O>
    const id: int
    var next: Node?<I, O>
    var prev: Node?<I, O>

    constructor (value: Value<I, O>, partner: Node?<I, O>, id: int)
      ensures this.value == value && this.partner == partner && this.id == id
      ensures next == null && prev == null
    {
      this.value, this.partner, this.id := value, partner, id;
      next, prev := null, null;
    }
  }

  ghost function At<I, O>(s: seq<Node<I, O>>, i: int): Node?<I, O> {
    if 0 <= i < |s| then s[i] else null
  }

  /** The nodes of s are distinct and linked in this order, in both directions. */
  ghost predicate Chain<I, O>(s: seq<Node<I, O>>)
    reads s
  {
    && Distinct(s)
    && (forall i {:trigger s[i].next} | 0 <= i < |s| :: s[i].next == At(s, i + 1))
    && (forall i {:trigger s[i].prev} | 0 <= i < |s| :: s[i].prev == At(s, i - 1))
  }

  /** Links n in front of mark, the node at position k; without a mark n stays on its own. */
  method InsertBefore<I, O>(n: Node<I, O>, mark: Node?<I, O>, ghost s: seq<Node<I, O>>, ghost k: nat)
    returns (r: Node<I, O>)
    requires Chain(s) && k <= |s| && mark == At(s, k) && (mark == null ==> s == [])
    requires n !in s && n.next == null && n.prev == null
    modifies n, s
    ensures r == n && Chain(s[..k] + [n] + s[k..])
  {
    if mark != null {
      var beforeMark := mark.prev;
      mark.prev := n;
      n.next := mark;
      if beforeMark != null {
        n.prev := beforeMark;
        beforeMark.next := n;
      }
    }
    return n;
  }

  method Length<I, O>(n: Node?<I, O>, ghost s: seq<Node<I, O>>) returns (l: nat)
    requires Chain(s) && n == At(s, 0)
    ensures l == |s|
  {
    l := 0;
    var m := n;
    while m != null
      invariant l <= |s| && m == At(s, l)
      decreases |s| - l
    {
      m := m.next;
      l := l + 1;
    }
  }

  /** s without its element at position p. */
  ghost function Drop<T>(s: seq<T>, p: nat): (r: seq<T>)
    requires p < |s|
    ensures |r| == |s| - 1
    ensures forall i | 0 <= i < p :: r[i] == s[i]
    ensures forall i | p <= i < |r| :: r[i] == s[i + 1]
  {
    s[..p] + s[p + 1..]
  }

  /** s without a call at position p and its return at position q. */
  ghost function Without<T>(s: seq<T>, p: nat, q: nat): (r: seq<T>)
    requires p < q < |s|
  {
    Drop(Drop(s, p), q - 1)
  }

  /** Takes a node out of its chain; the node itself keeps its links. */
  method Bypass<I, O>(node: Node<I, O>, ghost s: seq<Node<I, O>>, ghost p: nat)
    requires Chain(s) && 0 < p < |s| && s[p] == node
    modifies s
    ensures Chain(Drop(s, p))
    ensures node.prev == old(node.prev) && node.next == old(node.next)
  {
    node.prev.next := node.next;
    if node.next != null {
      node.next.prev := node.prev;
    }
  }

  /** Puts a node back between the neighbours it still points to. */
  method Restore<I, O>(node: Node<I, O>, ghost s: seq<Node<I, O>>, ghost p: nat)
    requires 0 < p < |s| && s[p] == node
    requires Distinct(s)
    requires Chain(Drop(s, p)) && node.prev == s[p - 1] && node.next == At(s, p + 1)
    modifies Drop(s, p)
    ensures Chain(s)
  {
    ghost var rest := Drop(s, p);
    assert forall i | 0 <= i < p :: s[i] == rest[i];
    assert forall i | p < i < |s| :: s[i] == rest[i - 1];
    node.prev.next := node;
    if node.next != null {
      node.next.prev := node;
    }
  }

  /** The links that a call at p and its return at q keep after they were lifted out of s. */
  ghost predicate Dangling<I, O>(s: seq<Node<I, O>>, p: nat, q: nat)
    requires 0 < p < q < |s|
    reads s[p], s[q]
  {
    && s[p].prev == s[p - 1] && s[p].next == s[p + 1]
    && s[q].prev == Drop(s, p)[q - 2] && s[q].next == At(s, q + 1)
  }

  /** Takes a call and its return out of the chain. */
  method Lift<I, O>(entry: Node<I, O>, ghost s: seq<Node<I, O>>, ghost p: nat, ghost q: nat)
    requires Chain(s) && 0 < p < q < |s| && s[p] == entry && s[q] == entry.partner
    modifies s
    ensures Chain(Without(s, p, q)) && Dangling(s, p, q)
  {
    Bypass(entry, s, p);
    Bypass(entry.partner, Drop(s, p), q - 1);
  }

  /** Undoes Lift exactly: every link of s is as it was. */
  method Unlift<I, O>(entry: Node<I, O>, ghost s: seq<Node<I, O>>, ghost p: nat, ghost q: nat)
    requires 0 < p < q < |s| && s[p] == entry && s[q] == entry.partner
    requires Distinct(s)
    requires Chain(Without(s, p, q)) && Dangling(s, p, q)
    modifies s
    ensures Chain(s)
  {
    Restore(entry.partner, Drop(s, p), q - 1);
    Restore(entry, s, p);
  }
}
