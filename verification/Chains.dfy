/**
  Singly linked lists as the C code keeps them: nodes whose values never change, a pointer to
  the first and, where there is one, a pointer to the last. The sequence of nodes is ghost.
 */
module Chains {

  class Node<T> {
    const value: T
    var next: Node?<T>

    constructor (value: T)
      ensures this.value == value && next == null
    {
      this.value := value;
      next := null;
    }
  }

  predicate Distinct<T>(nodes: seq<Node<T>>) {
    forall i, j :: 0 <= i < j < |nodes| ==> nodes[i] != nodes[j]
  }

  /** No node in common. */
  predicate Apart<T>(a: seq<Node<T>>, b: seq<Node<T>>) { forall n <- a :: n !in b }

  function First<T>(nodes: seq<Node<T>>): Node?<T> { if nodes == [] then null else nodes[0] }

  function Last<T>(nodes: seq<Node<T>>): Node?<T> { if nodes == [] then null else nodes[|nodes| - 1] }

  /** Each node points to the one after it, the last to nothing. */
  ghost predicate Linked<T>(nodes: seq<Node<T>>)
    reads nodes
  {
    && (forall i, j :: 0 <= i && j == i + 1 && j < |nodes| ==> nodes[i].next == nodes[j])
    && (nodes != [] ==> nodes[|nodes| - 1].next == null)
  }

  /** The list without its first node. */
  lemma TailIsLinked<T>(nodes: seq<Node<T>>)
    requires nodes != [] && Linked(nodes) && Distinct(nodes)
    ensures Linked(nodes[1..]) && Distinct(nodes[1..]) && First(nodes[1..]) == nodes[0].next
    ensures Last(nodes[1..]) == if |nodes| == 1 then null else Last(nodes)
  {
    var rest := nodes[1..];
    assert forall i :: 0 <= i < |rest| ==> rest[i] == nodes[i + 1];
    assert |rest| > 0 ==> rest[|rest| - 1] == nodes[|nodes| - 1];
    assert |nodes| > 1 ==> nodes[0].next == nodes[1];
  }

  /** The list with one more node, to which the last one points. */
  lemma AppendIsLinked<T>(nodes: seq<Node<T>>, n: Node<T>)
    requires Distinct(nodes) && n !in nodes && n.next == null
    requires forall i, j :: 0 <= i && j == i + 1 && j < |nodes| ==> nodes[i].next == nodes[j]
    requires nodes != [] ==> nodes[|nodes| - 1].next == n
    ensures Linked(nodes + [n]) && Distinct(nodes + [n])
    ensures First(nodes + [n]) == (if nodes == [] then n else First(nodes)) && Last(nodes + [n]) == n
  {
    var more := nodes + [n];
    assert more[|nodes|] == n && forall i :: 0 <= i < |nodes| ==> more[i] == nodes[i];
  }

  /** The list with one more node in front. */
  lemma PrependIsLinked<T>(n: Node<T>, nodes: seq<Node<T>>)
    requires Linked(nodes) && Distinct(nodes) && n !in nodes && n.next == First(nodes)
    ensures Linked([n] + nodes) && Distinct([n] + nodes) && First([n] + nodes) == n
  {
    var more := [n] + nodes;
    assert more[0] == n && forall i :: 0 < i < |more| ==> more[i] == nodes[i - 1];
  }

  /** The two halves of a list cut behind its first `k` nodes. */
  lemma CutIsLinked<T>(nodes: seq<Node<T>>, k: nat)
    requires 0 < k <= |nodes| && Distinct(nodes)
    requires forall i, j :: 0 <= i && j == i + 1 && j < |nodes| && j != k ==> nodes[i].next == nodes[j]
    requires nodes[k - 1].next == null && nodes[|nodes| - 1].next == null
    ensures Linked(nodes[..k]) && Linked(nodes[k..]) && Distinct(nodes[..k])
  {
    var a, b := nodes[..k], nodes[k..];
    assert forall i :: 0 <= i < k ==> a[i] == nodes[i];
    assert forall i :: 0 <= i < |b| ==> b[i] == nodes[k + i];
  }

  lemma FirstOfRest<T>(nodes: seq<Node<T>>, k: nat)
    requires 0 < k <= |nodes| && Linked(nodes)
    ensures First(nodes[k..]) == nodes[k - 1].next
    ensures First(nodes[..k]) == First(nodes)
  {
    assert k < |nodes| ==> nodes[k..][0] == nodes[k] && nodes[k - 1].next == nodes[k];
  }

  function Values<T>(nodes: seq<Node<T>>): (s: seq<T>)
    ensures |s| == |nodes|
  {
    if nodes == [] then [] else [nodes[0].value] + Values(nodes[1..])
  }

  lemma {:induction false} ValuesConcat<T>(a: seq<Node<T>>, b: seq<Node<T>>)
    ensures Values(a + b) == Values(a) + Values(b)
  {
    if a == [] {
      assert a + b == b;
    } else {
      assert (a + b)[1..] == a[1..] + b;
      ValuesConcat(a[1..], b);
    }
  }

  lemma ValuesSplit<T>(nodes: seq<Node<T>>, k: nat)
    requires k <= |nodes|
    ensures Values(nodes[..k]) == Values(nodes)[..k] && Values(nodes[k..]) == Values(nodes)[k..]
  {
    hide Values;
    var a, b := nodes[..k], nodes[k..];
    assert nodes == a + b;
    ValuesConcat(a, b);
    assert (Values(a) + Values(b))[..k] == Values(a) && (Values(a) + Values(b))[k..] == Values(b);
  }

  lemma {:induction false} ValueAt<T>(nodes: seq<Node<T>>, k: nat)
    requires k < |nodes|
    ensures Values(nodes)[k] == nodes[k].value
  {
    if k > 0 {
      ValueAt(nodes[1..], k - 1);
    }
  }

  lemma ValuesAppend<T>(nodes: seq<Node<T>>, n: Node<T>)
    ensures Values(nodes + [n]) == Values(nodes) + [n.value]
  {
    ValuesConcat(nodes, [n]);
    assert Values([n]) == [n.value] + Values([]);
  }
}
