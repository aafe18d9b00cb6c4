/**
 * The explicit-stack walk over the MIME parts of a Gmail message
 * (backend/src/job_apply_pro/integrations/provider_clients.py), against the recursive
 * left-to-right preorder of the part tree.
 */
module MimeWalk {
  import opened Prelude

  const MAX_GMAIL_MIME_PARTS := 500

  /** A JSON object with a list under "parts", an object without one, or any other JSON value. */
  datatype Json = Multipart(members: int, parts: seq<Json>) | Single(members: int) | Other

  predicate Object(value: Json) { !value.Other? }

  function Children(node: Json): seq<Json> {
    if node.Multipart? then node.parts else []
  }

  /** The nodes of `values` and below, each before its own parts and parts from left to right. */
  function Preorder(values: seq<Json>): (nodes: seq<Json>)
    decreases values
  {
    if values == [] then []
    else
      match values[0]
      case Multipart(_, parts) => [values[0]] + Preorder(parts) + Preorder(values[1..])
      case Single(_) => [values[0]] + Preorder(values[1..])
      case Other => Preorder(values[1..])
  }

  /**
   * The preorder, part by part: lists are walked one after the other, a node that is no object is
   * passed over with all that is below it, and any other comes right before its own parts.
   */
  lemma {:induction false} PreorderExactly(a: seq<Json>, b: seq<Json>, node: Json)
    ensures Preorder(a + b) == Preorder(a) + Preorder(b) && Preorder([]) == []
    ensures Preorder([node]) ==
            match node
            case Other => []
            case Single(_) => [node]
            case Multipart(_, parts) => [node] + Preorder(parts)
  {
    assert [node][1..] == [] && Preorder([node][1..]) == [];
    if a == [] {
      assert a + b == b;
    } else {
      assert (a + b)[0] == a[0] && (a + b)[1..] == a[1..] + b;
      PreorderExactly(a[1..], b, node);
    }
  }

  function Objects(values: seq<Json>): seq<Json> {
    if values == [] then []
    else if Object(values[0]) then [values[0]] + Objects(values[1..])
    else Objects(values[1..])
  }

  function Reversed(values: seq<Json>): (r: seq<Json>)
    ensures |r| == |values|
  {
    if values == [] then [] else Reversed(values[1..]) + [values[0]]
  }

  /** What a walk still has to visit: the preorders of the pending nodes, last one first. */
  function Remaining(pending: seq<Json>): seq<Json> {
    if pending == [] then [] else Preorder([pending[|pending| - 1]]) + Remaining(pending[..|pending| - 1])
  }

  lemma PreorderCons(node: Json, rest: seq<Json>)
    ensures Preorder([node] + rest) == Preorder([node]) + Preorder(rest)
  {
    assert ([node] + rest)[1..] == rest && [node][1..] == [];
  }

  lemma {:induction false} PreorderOfObjects(values: seq<Json>)
    ensures Preorder(Objects(values)) == Preorder(values)
  {
    if values != [] {
      PreorderOfObjects(values[1..]);
      assert values == [values[0]] + values[1..];
      PreorderCons(values[0], values[1..]);
      if Object(values[0]) { PreorderCons(values[0], Objects(values[1..])); }
    }
  }

  /** Pushing children in reverse order makes them the next to be visited, left to right. */
  lemma {:induction false} PushedReversed(pending: seq<Json>, values: seq<Json>)
    ensures Remaining(pending + Reversed(values)) == Preorder(values) + Remaining(pending)
  {
    hide Preorder;
    if values == [] {
      assert pending + Reversed(values) == pending && Preorder([]) == [] by { PreorderEmpty(); }
    } else {
      var stack, first := pending + Reversed(values[1..]), values[0];
      assert pending + Reversed(values) == stack + [first];
      assert (stack + [first])[..|stack|] == stack;
      PushedReversed(pending, values[1..]);
      assert values == [first] + values[1..];
      PreorderCons(first, values[1..]);
    }
  }

  lemma PreorderEmpty()
    ensures Preorder([]) == []
  {
  }

  lemma RemainingLast(pending: seq<Json>, current: Json)
    ensures Remaining(pending + [current]) == Preorder([current]) + Remaining(pending)
  {
    assert (pending + [current])[..|pending|] == pending;
  }

  /** Visiting one node leaves its objects among the children, then the rest of the stack. */
  lemma VisitOne(pending: seq<Json>, current: Json)
    requires Object(current)
    ensures Remaining(pending + [current]) == [current] + Remaining(pending + Reversed(Objects(Children(current))))
  {
    hide Reversed, Objects, Remaining, Preorder;
    RemainingLast(pending, current);
    PreorderOfOne(current);
    PreorderOfObjects(Children(current));
    PushedReversed(pending, Objects(Children(current)));
  }

  lemma PreorderOfOne(node: Json)
    requires Object(node)
    ensures Preorder([node]) == [node] + Preorder(Children(node))
  {
    assert [node][1..] == [] && Preorder([node][1..]) == [];
  }

  lemma {:induction false} ReversedObjects(values: seq<Json>)
    ensures forall node :: node in Reversed(Objects(values)) ==> Object(node)
  {
    if values != [] { ReversedObjects(values[1..]); ReversedCons(values); }
  }

  lemma ReversedCons(values: seq<Json>)
    requires values != []
    ensures Reversed(Objects(values)) == Reversed(Objects(values[1..])) + if Object(values[0]) then [values[0]] else []
  {
    hide Reversed;
    var rest := Objects(values[1..]);
    if Object(values[0]) { ReversedFirst(values[0], rest); }
    else { assert Reversed(rest) == Reversed(rest) + []; }
  }

  lemma ReversedFirst(node: Json, rest: seq<Json>)
    ensures Reversed([node] + rest) == Reversed(rest) + [node]
  {
    assert ([node] + rest)[1..] == rest;
  }

  method ReversedParts(values: seq<Json>) returns (r: seq<Json>)
    ensures r == Reversed(Objects(values))
    ensures forall node :: node in r ==> Object(node)
  {
    r := [];
    var i := |values|;
    while i > 0
      invariant 0 <= i <= |values| && r == Reversed(Objects(values[i..]))
    {
      i := i - 1;
      assert values[i..][1..] == values[i + 1..];
      ReversedCons(values[i..]);
      if Object(values[i]) { r := r + [values[i]]; }
    }
    assert values[0..] == values;
    ReversedObjects(values);
  }

  /** The walk yields the whole preorder, and fails exactly when the tree has over 500 nodes. */
  method PayloadNodes(payload: Json) returns (r: Result<seq<Json>, ()>)
    requires Object(payload)
    ensures r == if |Preorder([payload])| <= 500 then Ok(Preorder([payload])) else Err(())
  {
    hide Preorder, Remaining, Objects, Reversed;
    var nodes: seq<Json> := [];
    var pending := [payload];
    RemainingOne(payload);
    while pending != []
      invariant forall node :: node in pending ==> Object(node)
      invariant nodes + Remaining(pending) == Preorder([payload]) && |nodes| <= MAX_GMAIL_MIME_PARTS
      decreases |Remaining(pending)|
    {
      var current := pending[|pending| - 1];
      var below := pending[..|pending| - 1];
      assert pending == below + [current];
      VisitOne(below, current);
      nodes := nodes + [current];
      if |nodes| > MAX_GMAIL_MIME_PARTS { return Err(()); }
      var parts := ReversedParts(Children(current));
      pending := below + parts;
    }
    RemainingNone();
    assert nodes + [] == nodes;
    return Ok(nodes);
  }

  lemma RemainingOne(node: Json)
    ensures Remaining([node]) == Preorder([node])
  {
    assert [node][..0] == [];
  }

  lemma RemainingNone()
    ensures Remaining([]) == []
  {
  }
}
