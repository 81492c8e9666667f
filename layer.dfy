/** The layer manager of the window system: which layers exist, which of
    them are shown, and in what order from back to front. Only the
    bookkeeping is modelled; a layer is represented by its ID (IDs are never
    reused while the counter does not wrap, so the ID identifies the
    `Layer` object the C++ vectors point to). */
module Layers {
  import opened Wrappers

  /** The largest value of the `unsigned int` ID counter. */
  const MaxLayerId: nat := 0xFFFF_FFFF

  /** Every element occurs once. */
  predicate Distinct(s: seq<nat>)
  {
    forall i, j :: 0 <= i < j < |s| ==> s[i] != s[j]
  }

  /** `std::find`: the position of the first `x` in `s`, or -1 when there is
      none. */
  function IndexOf(s: seq<nat>, x: nat): (r: int)
    ensures -1 <= r < |s|
    ensures r == -1 <==> x !in s
    ensures r >= 0 ==> s[r] == x && x !in s[..r]
  {
    if s == [] then -1
    else if s[0] == x then 0
    else
      var r := IndexOf(s[1..], x);
      if r == -1 then -1
      else
        assert s[..r + 1] == [s[0]] + s[1..][..r];
        r + 1
  }

  /** `vector::erase` at the position `std::find` returns: the first `x` is
      dropped, everything else keeps its order. */
  function Remove(s: seq<nat>, x: nat): (r: seq<nat>)
  {
    var i := IndexOf(s, x);
    if i == -1 then s else s[..i] + s[i + 1..]
  }

  /** `vector::insert` of `x` before position `h`. */
  function InsertAt(s: seq<nat>, h: nat, x: nat): (r: seq<nat>)
    requires h <= |s|
    ensures |r| == |s| + 1 && r[h] == x && r[..h] == s[..h] && r[h + 1..] == s[h..]
  {
    s[..h] + [x] + s[h..]
  }

  /** The display stack after `UpDown(id, newHeight)`: a negative height
      hides the layer; otherwise the height is cut down to the stack size,
      and a layer already shown is taken out and put back at that height, or
      at the top when the height was the old stack size. */
  function UpDownStack(s: seq<nat>, id: nat, newHeight: int): seq<nat>
  {
    if newHeight < 0 then Remove(s, id)
    else
      var h := if newHeight > |s| then |s| else newHeight;
      var i := IndexOf(s, id);
      if i == -1 then InsertAt(s, h, id)
      else InsertAt(Remove(s, id), if h == |s| then h - 1 else h, id)
  }

  function Min(a: int, b: int): int
  {
    if a < b then a else b
  }

  /** Removing an element from a list without repeats: it is gone, the list
      is one shorter, still without repeats, and every other element stays. */
  lemma RemoveSpec(s: seq<nat>, x: nat)
    requires Distinct(s)
    ensures var r := Remove(s, x);
      Distinct(r) && x !in r
      && |r| == (if x in s then |s| - 1 else |s|)
      && forall y :: y != x ==> (y in r <==> y in s)
  {
    var i := IndexOf(s, x);
    if i != -1 {
      var r := s[..i] + s[i + 1..];
      assert forall k :: 0 <= k < |r| ==> r[k] == (if k < i then s[k] else s[k + 1]);
      forall y | y != x
        ensures y in r <==> y in s
      {
        if y in s {
          var k :| 0 <= k < |s| && s[k] == y;
          assert k != i;
          assert r[if k < i then k else k - 1] == y;
        }
      }
    }
  }

  /** Inserting a new element and then removing it gives back the list. */
  lemma RemoveInserted(s: seq<nat>, h: nat, x: nat)
    requires h <= |s| && x !in s
    ensures IndexOf(InsertAt(s, h, x), x) == h
    ensures Remove(InsertAt(s, h, x), x) == s
  {
    var t := InsertAt(s, h, x);
    assert x !in t[..h] by {
      assert t[..h] == s[..h];
    }
    assert t[..h] + t[h + 1..] == s[..h] + s[h..];
    assert s[..h] + s[h..] == s;
  }

  /** Inserting a new element into a list without repeats keeps it without
      repeats. */
  lemma InsertDistinct(s: seq<nat>, h: nat, x: nat)
    requires Distinct(s) && h <= |s| && x !in s
    ensures Distinct(InsertAt(s, h, x))
  {
    var t := InsertAt(s, h, x);
    assert forall k :: 0 <= k < |t| && k != h ==> t[k] == s[if k < h then k else k - 1];
  }

  /** Inserting a new element into a list without repeats. */
  lemma InsertSpec(t: seq<nat>, h: nat, x: nat)
    requires Distinct(t) && h <= |t| && x !in t
    ensures var r := InsertAt(t, h, x);
      Distinct(r) && Remove(r, x) == t && IndexOf(r, x) == h
  {
    RemoveInserted(t, h, x);
    InsertDistinct(t, h, x);
  }

  /** What `UpDown` promises: a negative height hides the layer exactly as
      `Hide` does; otherwise the layer is shown once at the requested height,
      or at the top when the height is beyond the other shown layers, and the
      other layers keep their relative order. */
  lemma UpDownStackSpec(s: seq<nat>, id: nat, newHeight: int)
    requires Distinct(s)
    ensures newHeight < 0 ==> UpDownStack(s, id, newHeight) == Remove(s, id)
    ensures var r := UpDownStack(s, id, newHeight);
      var others := Remove(s, id);
      newHeight >= 0 ==>
        Distinct(r) && Remove(r, id) == others && |r| == |others| + 1
        && IndexOf(r, id) == Min(newHeight, |others|)
        && (newHeight >= |others| ==> r[|r| - 1] == id)
  {
    var others := Remove(s, id);
    RemoveSpec(s, id);
    if newHeight >= 0 {
      var h := if newHeight > |s| then |s| else newHeight;
      var at := if IndexOf(s, id) != -1 && h == |s| then h - 1 else h;
      assert at == Min(newHeight, |others|);
      assert UpDownStack(s, id, newHeight) == InsertAt(others, at, id);
      InsertSpec(others, at, id);
    }
  }

  /** `UpDown` only ever shows the given layer or layers already shown. */
  lemma UpDownStackMembers(s: seq<nat>, id: nat, newHeight: int)
    requires Distinct(s)
    ensures forall x :: x in UpDownStack(s, id, newHeight) ==> x == id || x in s
  {
    RemoveSpec(s, id);
    if newHeight >= 0 {
      UpDownStackSpec(s, id, newHeight);
      RemoveSpec(UpDownStack(s, id, newHeight), id);
    }
  }

  /** `UpDown` of an existing layer keeps the display stack a list without
      repeats of existing layers. */
  lemma UpDownKeepsShown(layers: seq<nat>, s: seq<nat>, id: nat, newHeight: int)
    requires Distinct(s) && id in layers
    requires forall x :: x in s ==> x in layers
    ensures Distinct(UpDownStack(s, id, newHeight))
    ensures forall x :: x in UpDownStack(s, id, newHeight) ==> x in layers
  {
    UpDownStackMembers(s, id, newHeight);
    UpDownStackSpec(s, id, newHeight);
  }

  /** `std::remove_if` followed by `erase`: every element equal to `x` is
      dropped, the rest keep their order. */
  function Without(s: seq<nat>, x: nat): (r: seq<nat>)
    ensures x !in r && |r| <= |s|
    ensures forall y :: y != x ==> (y in r <==> y in s)
  {
    if s == [] then []
    else if s[0] == x then Without(s[1..], x)
    else [s[0]] + Without(s[1..], x)
  }

  /** On a list without repeats, erasing every `x` is erasing the first. */
  lemma {:induction false} WithoutIsRemove(s: seq<nat>, x: nat)
    requires Distinct(s)
    ensures Without(s, x) == Remove(s, x)
  {
    if s != [] {
      assert Distinct(s[1..]);
      WithoutIsRemove(s[1..], x);
      if s[0] != x && x in s[1..] {
        var i := IndexOf(s[1..], x);
        assert IndexOf(s, x) == i + 1;
        assert s[..i + 1] == [s[0]] + s[1..][..i];
        assert s[i + 2..] == s[1..][i + 1..];
      } else if s[0] == x {
        assert x !in s[1..];
        assert IndexOf(s, x) == 0;
      }
    }
  }

  /** `LayerManager`: `layers` stands for `layers_` (every layer, in creation
      order), `stack` for `layer_stack_` (the shown layers from back to
      front) and `latestId` for `latest_id_`. */
  class LayerManager {
    var layers: seq<nat>
    var stack: seq<nat>
    var latestId: nat

    /** IDs are unique and were all handed out by the counter; each shown
        layer exists and is shown once. */
    ghost predicate Valid()
      reads this
    {
      Distinct(layers) && Distinct(stack) && latestId <= MaxLayerId
      && (forall i :: 0 <= i < |layers| ==> 1 <= layers[i] <= latestId)
      && (forall x :: x in stack ==> x in layers)
    }

    constructor ()
      ensures Valid() && layers == [] && stack == [] && latestId == 0
    {
      layers := [];
      stack := [];
      latestId := 0;
    }

    function GetLatestID(): nat
      reads this
    {
      latestId
    }

    /** `FindLayer`: the position in `layers` of the layer with this ID, or
        `None` for the null pointer. */
    function FindLayer(id: nat): (r: Option<nat>)
      reads this
      ensures r.Some? <==> id in layers
      ensures r.Some? ==> r.value < |layers| && layers[r.value] == id
    {
      var i := IndexOf(layers, id);
      if i == -1 then None else Some(i)
    }

    /** `NewLayer`: bump the counter and append a layer with the new ID; it is
        not shown until `UpDown` places it. */
    method NewLayer() returns (id: nat)
      requires Valid() && latestId < MaxLayerId
      modifies this
      ensures Valid()
      ensures id == old(latestId) + 1 && GetLatestID() == id && id !in old(layers)
      ensures layers == old(layers) + [id] && stack == old(stack)
      ensures FindLayer(id) == Some(|old(layers)|)
    {
      latestId := latestId + 1;
      id := latestId;
      assert id !in layers;
      layers := layers + [id];
      assert forall x :: x in old(stack) ==> x in layers;
      assert Distinct(layers) by {
        assert forall i :: 0 <= i < |layers| - 1 ==> layers[i] == old(layers)[i];
      }
      assert IndexOf(layers, id) == |old(layers)| by {
        assert layers[..|old(layers)|] == old(layers);
      }
    }

    /** `Hide`: take the layer off the display stack if it is there. */
    method Hide(id: nat)
      requires Valid()
      modifies this
      ensures Valid() && stack == Remove(old(stack), id)
      ensures layers == old(layers) && latestId == old(latestId)
    {
      RemoveSpec(stack, id);
      var pos := IndexOf(stack, id);
      if pos != -1 {
        stack := stack[..pos] + stack[pos + 1..];
      }
    }

    /** `UpDown`: move a layer to a height in the display stack, hiding it
        for a negative height. A height past the top is clamped to the top:
        for a layer not yet shown that is a push, for a shown one the last
        position once it has been taken out. */
    method UpDown(id: nat, newHeight: int)
      requires Valid() && FindLayer(id).Some?
      modifies this
      ensures Valid() && stack == UpDownStack(old(stack), id, newHeight)
      ensures layers == old(layers) && latestId == old(latestId)
    {
      if newHeight < 0 {
        Hide(id);
        return;
      }
      ghost var target := UpDownStack(stack, id, newHeight);
      UpDownKeepsShown(layers, stack, id, newHeight);
      var height := newHeight;
      if height > |stack| {
        height := |stack|;
      }
      var oldPos := IndexOf(stack, id);
      if oldPos == -1 {
        stack := InsertAt(stack, height, id);
        assert stack == target;
        return;
      }
      if height == |stack| {
        height := height - 1;
      }
      stack := InsertAt(Remove(stack, id), height, id);
      assert stack == target;
    }

    /** `GetHeight`: the position of the layer in the display stack, or -1
        when it is not shown. */
    method GetHeight(id: nat) returns (h: int)
      ensures h == IndexOf(stack, id)
    {
      h := 0;
      while h < |stack|
        invariant 0 <= h <= |stack| && id !in stack[..h]
      {
        if stack[h] == id {
          return;
        }
        assert stack[..h + 1] == stack[..h] + [stack[h]];
        h := h + 1;
      }
      assert stack[..h] == stack;
      h := -1;
    }

    /** `RemoveLayer`: hide the layer, then erase every layer with that ID. */
    method RemoveLayer(id: nat)
      requires Valid()
      modifies this
      ensures Valid() && FindLayer(id) == None
      ensures stack == Remove(old(stack), id) && layers == Without(old(layers), id)
      ensures latestId == old(latestId)
    {
      Hide(id);
      RemoveSpec(layers, id);
      WithoutIsRemove(layers, id);
      layers := Without(layers, id);
    }
  }

  /** The layer operations a message can ask for. */
  datatype LayerOperation = Move | MoveRelative | Draw | DrawArea

  datatype Vector2D = Vector2D(x: int, y: int)

  datatype Rectangle = Rectangle(pos: Vector2D, size: Vector2D)

  datatype MessageKind = KindLayer | KindLayerFinish

  /** The layer part of a message: the area travels as four plain ints. */
  datatype LayerArg = LayerArg(layerId: nat, op: LayerOperation, x: int, y: int, w: int, h: int)

  datatype Message = Message(kind: MessageKind, srcTask: nat, layer: LayerArg)

  /** The area a layer message carries, as the receiver reads it back. */
  function AreaOf(m: Message): Rectangle
  {
    Rectangle(Vector2D(m.layer.x, m.layer.y), Vector2D(m.layer.w, m.layer.h))
  }

  /** `MakeLayerMessage`: a layer message from a kernel task, naming the layer and
      the operation, with the area flattened into its fields. */
  function MakeLayerMessage(taskId: nat, layerId: nat, op: LayerOperation, area: Rectangle): (m: Message)
    ensures m.kind == KindLayer && m.srcTask == taskId
    ensures m.layer.layerId == layerId && m.layer.op == op
    ensures AreaOf(m) == area
  {
    Message(KindLayer, taskId,
      LayerArg(layerId, op, area.pos.x, area.pos.y, area.size.x, area.size.y))
  }
}
