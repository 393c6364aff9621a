/**
 * The patch being edited: its background shape, border and the ordered list
 * of text and icon elements placed on it, together with the pure list
 * transforms the editor's handlers apply to that list (append, merge by id,
 * filter by id, set the selection flag) and what they preserve.
 */
module Design {
  import opened Wrappers

  /** The background shapes a patch can take. */
  datatype PatchShape = Circle | Square | Shield | Hexagon | Rectangle

  /** The element kinds; `Shape` is declared but no handler creates one. */
  datatype ElementType = Text | Shape | Icon

  /**
   * One element on the canvas. Numeric fields are JavaScript numbers, held
   * here as reals; `kind` is the element's `type`. `fontSize` and
   * `fontFamily` are optional and only text elements set them.
   */
  datatype PatchElement = PatchElement(
    id: string,
    kind: ElementType,
    content: string,
    x: real,
    y: real,
    width: real,
    height: real,
    color: string,
    fontSize: Option<real>,
    fontFamily: Option<string>,
    rotation: real,
    selected: bool)

  /** The whole design; `elements` is in insertion (and painting) order. */
  datatype PatchDesign = PatchDesign(
    shape: PatchShape,
    backgroundColor: string,
    borderColor: string,
    borderWidth: real,
    size: real,
    elements: seq<PatchElement>)

  /** The design the editor opens with: a dark-green shield with a gold border and no elements. */
  const InitialDesign: PatchDesign := PatchDesign(Shield, "#2D5016", "#FFD700", 3.0, 200.0, [])

  /** A partial element: the fields an update sets; `None` leaves a field as it is. */
  datatype ElementPatch = ElementPatch(
    id: Option<string>,
    kind: Option<ElementType>,
    content: Option<string>,
    x: Option<real>,
    y: Option<real>,
    width: Option<real>,
    height: Option<real>,
    color: Option<string>,
    fontSize: Option<real>,
    fontFamily: Option<string>,
    rotation: Option<real>,
    selected: Option<bool>)

  /** The patch that sets nothing. */
  const NoChange: ElementPatch := ElementPatch(None, None, None, None, None, None, None, None, None, None, None, None)

  /** The object spread `{ ...el, ...p }`: every field `p` sets, the rest from `el`. */
  function Merge(el: PatchElement, p: ElementPatch): PatchElement {
    PatchElement(
      p.id.GetOr(el.id),
      p.kind.GetOr(el.kind),
      p.content.GetOr(el.content),
      p.x.GetOr(el.x),
      p.y.GetOr(el.y),
      p.width.GetOr(el.width),
      p.height.GetOr(el.height),
      p.color.GetOr(el.color),
      if p.fontSize.Some? then p.fontSize else el.fontSize,
      if p.fontFamily.Some? then p.fontFamily else el.fontFamily,
      p.rotation.GetOr(el.rotation),
      p.selected.GetOr(el.selected))
  }

  /** The spread `{ ...p, ...q }`: `q`'s fields win over `p`'s. */
  function Then(p: ElementPatch, q: ElementPatch): ElementPatch {
    ElementPatch(
      if q.id.Some? then q.id else p.id,
      if q.kind.Some? then q.kind else p.kind,
      if q.content.Some? then q.content else p.content,
      if q.x.Some? then q.x else p.x,
      if q.y.Some? then q.y else p.y,
      if q.width.Some? then q.width else p.width,
      if q.height.Some? then q.height else p.height,
      if q.color.Some? then q.color else p.color,
      if q.fontSize.Some? then q.fontSize else p.fontSize,
      if q.fontFamily.Some? then q.fontFamily else p.fontFamily,
      if q.rotation.Some? then q.rotation else p.rotation,
      if q.selected.Some? then q.selected else p.selected)
  }

  /** The empty patch changes nothing, a patch applied twice acts once, and two patches in a row act as their spread. */
  lemma MergeLaws(el: PatchElement, p: ElementPatch, q: ElementPatch)
    ensures Merge(el, NoChange) == el
    ensures Merge(Merge(el, p), p) == Merge(el, p)
    ensures Merge(Merge(el, p), q) == Merge(el, Then(p, q))
  {
  }

  // ----- Queries over an element list -----

  /** Some element carries `id`. */
  predicate HasId(els: seq<PatchElement>, id: string) {
    exists i :: 0 <= i < |els| && els[i].id == id
  }

  /** The number of elements that carry `id`. */
  function CountId(els: seq<PatchElement>, id: string): nat {
    if els == [] then 0 else (if els[0].id == id then 1 else 0) + CountId(els[1..], id)
  }

  /** The number of elements whose `selected` flag is set. */
  function CountSelected(els: seq<PatchElement>): nat {
    if els == [] then 0 else (if els[0].selected then 1 else 0) + CountSelected(els[1..])
  }

  /** No two elements share an id. */
  predicate UniqueIds(els: seq<PatchElement>) {
    forall i, j :: 0 <= i < j < |els| ==> els[i].id != els[j].id
  }

  /** The list invariants the editor aims for: ids are unique and at most one element is selected. */
  predicate Consistent(els: seq<PatchElement>) {
    UniqueIds(els) && CountSelected(els) <= 1
  }

  /** When a selection is tracked, exactly the elements with that id carry the flag. */
  predicate SelectionAgrees(els: seq<PatchElement>, sel: Option<string>) {
    sel.Some? ==> forall i :: 0 <= i < |els| ==> (els[i].selected <==> els[i].id == sel.value)
  }

  lemma {:induction false} CountIdPositive(els: seq<PatchElement>, id: string)
    ensures CountId(els, id) > 0 <==> HasId(els, id)
  {
    if els != [] {
      CountIdPositive(els[1..], id);
      HasIdCons(els, id);
    }
  }

  /** An id occurs in a non-empty list when it is the head's or occurs in the tail. */
  lemma HasIdCons(els: seq<PatchElement>, id: string)
    requires els != []
    ensures HasId(els, id) <==> els[0].id == id || HasId(els[1..], id)
  {
  }

  /** With unique ids, an id occurs at most once. */
  lemma {:induction false} UniqueCountAtMostOne(els: seq<PatchElement>, id: string)
    requires UniqueIds(els)
    ensures CountId(els, id) <= 1
  {
    if els != [] {
      UniqueCountAtMostOne(els[1..], id);
      if els[0].id == id {
        forall k | 0 <= k < |els[1..]| ensures els[1..][k].id != id {
          assert els[1..][k] == els[k + 1];
        }
        CountIdPositive(els[1..], id);
      }
    }
  }

  lemma {:induction false} CountSelectedAppend(els: seq<PatchElement>, e: PatchElement)
    ensures CountSelected(els + [e]) == CountSelected(els) + (if e.selected then 1 else 0)
  {
    if els != [] {
      assert (els + [e])[1..] == els[1..] + [e];
      CountSelectedAppend(els[1..], e);
    }
  }

  // ----- Find by id (the panel's `selectedElementData`) -----

  /** The first element carrying `id`, if any. */
  function FindById(els: seq<PatchElement>, id: string): (r: Option<PatchElement>)
    ensures r.Some? ==> r.value in els && r.value.id == id
  {
    if els == [] then None
    else if els[0].id == id then Some(els[0])
    else FindById(els[1..], id)
  }

  /** `FindById` finds nothing exactly when no element has `id`, and otherwise the first element that has it. */
  lemma {:induction false} FindByIdFirst(els: seq<PatchElement>, id: string)
    ensures FindById(els, id).None? <==> !HasId(els, id)
    ensures forall i :: 0 <= i < |els| && els[i].id == id && (forall j :: 0 <= j < i ==> els[j].id != id) ==>
      FindById(els, id) == Some(els[i])
  {
    if els != [] {
      FindByIdFirst(els[1..], id);
      HasIdCons(els, id);
      forall i | 0 <= i < |els| && els[i].id == id && (forall j :: 0 <= j < i ==> els[j].id != id)
        ensures FindById(els, id) == Some(els[i])
      {
        if i > 0 {
          assert els[0].id != id;
          assert els[1..][i - 1] == els[i];
          assert forall j :: 0 <= j < i - 1 ==> els[1..][j].id != id by {
            forall j | 0 <= j < i - 1 ensures els[1..][j].id != id {
              assert els[1..][j] == els[j + 1];
            }
          }
        }
      }
    }
  }

  // ----- Map-merge by id (`updateElement`) -----

  /** Every element carrying `id` merged with `p`; the others as they were. */
  function UpdateById(els: seq<PatchElement>, id: string, p: ElementPatch): (r: seq<PatchElement>)
    ensures |r| == |els|
  {
    if els == [] then []
    else [if els[0].id == id then Merge(els[0], p) else els[0]] + UpdateById(els[1..], id, p)
  }

  /** Element by element: matching elements take exactly the patched fields, all others are untouched, order is kept. */
  lemma {:induction false} UpdateByIdAt(els: seq<PatchElement>, id: string, p: ElementPatch, i: int)
    requires 0 <= i < |els|
    ensures UpdateById(els, id, p)[i] == if els[i].id == id then Merge(els[i], p) else els[i]
  {
    if i > 0 {
      UpdateByIdAt(els[1..], id, p, i - 1);
    }
  }

  /** An update for an id no element has leaves the list as it is. */
  lemma {:induction false} UpdateByIdAbsent(els: seq<PatchElement>, id: string, p: ElementPatch)
    requires !HasId(els, id)
    ensures UpdateById(els, id, p) == els
  {
    if els != [] {
      HasIdCons(els, id);
      UpdateByIdAbsent(els[1..], id, p);
    }
  }

  /** Two updates of the same element in a row act as one update with both patches spread together. */
  lemma {:induction false} UpdateByIdTwice(els: seq<PatchElement>, id: string, p: ElementPatch, q: ElementPatch)
    requires p.id.None? || p.id == Some(id)
    ensures UpdateById(UpdateById(els, id, p), id, q) == UpdateById(els, id, Then(p, q))
  {
    if els != [] {
      MergeLaws(els[0], p, q);
      UpdateByIdTwice(els[1..], id, p, q);
    }
  }

  /** A patch that sets neither `id` nor `selected` keeps the list consistent and the tracked selection in agreement. */
  lemma {:induction false} UpdateByIdKeepsInvariants(els: seq<PatchElement>, id: string, p: ElementPatch, sel: Option<string>)
    ensures p.id.None? && p.selected.None? && Consistent(els) ==> Consistent(UpdateById(els, id, p))
    ensures p.id.None? && p.selected.None? && SelectionAgrees(els, sel) ==> SelectionAgrees(UpdateById(els, id, p), sel)
  {
    if p.id.None? && p.selected.None? {
      var r := UpdateById(els, id, p);
      forall i | 0 <= i < |els| ensures r[i].id == els[i].id && r[i].selected == els[i].selected {
        UpdateByIdAt(els, id, p, i);
      }
      SameFlagsSameCount(els, r);
    }
  }

  /** Lists that agree element by element on the `selected` flag have the same number of selected elements. */
  lemma {:induction false} SameFlagsSameCount(a: seq<PatchElement>, b: seq<PatchElement>)
    requires |a| == |b|
    requires forall i :: 0 <= i < |a| ==> a[i].selected == b[i].selected
    ensures CountSelected(a) == CountSelected(b)
  {
    if a != [] {
      SameFlagsSameCount(a[1..], b[1..]);
    }
  }

  // ----- Filter by id (`deleteElement`) -----

  /** The list without the elements carrying `id`; its length drops by the number of them. */
  function RemoveById(els: seq<PatchElement>, id: string): (r: seq<PatchElement>)
    ensures |r| == |els| - CountId(els, id)
  {
    if els == [] then []
    else (if els[0].id == id then [] else [els[0]]) + RemoveById(els[1..], id)
  }

  /** Removal distributes over concatenation, so the survivors keep their relative order. */
  lemma {:induction false} RemoveByIdConcat(a: seq<PatchElement>, b: seq<PatchElement>, id: string)
    ensures RemoveById(a + b, id) == RemoveById(a, id) + RemoveById(b, id)
  {
    if a == [] {
      assert a + b == b;
    } else {
      assert (a + b)[0] == a[0];
      assert (a + b)[1..] == a[1..] + b;
      RemoveByIdConcat(a[1..], b, id);
    }
  }

  /** What is kept is exactly the elements whose id differs from `id`. */
  lemma {:induction false} RemoveByIdMembers(els: seq<PatchElement>, id: string)
    ensures forall e :: e in RemoveById(els, id) <==> e in els && e.id != id
  {
    if els != [] {
      RemoveByIdMembers(els[1..], id);
      assert els == [els[0]] + els[1..];
    }
  }

  /** Deleting an id no element has leaves the list as it is. */
  lemma {:induction false} RemoveByIdAbsent(els: seq<PatchElement>, id: string)
    requires !HasId(els, id)
    ensures RemoveById(els, id) == els
  {
    if els != [] {
      HasIdCons(els, id);
      RemoveByIdAbsent(els[1..], id);
      assert els == [els[0]] + els[1..];
    }
  }

  /** With unique ids, deleting an id that is present removes exactly one element. */
  lemma RemoveByIdPresent(els: seq<PatchElement>, id: string)
    requires UniqueIds(els) && HasId(els, id)
    ensures |RemoveById(els, id)| == |els| - 1
  {
    UniqueCountAtMostOne(els, id);
    CountIdPositive(els, id);
  }

  /** Deleting keeps the list consistent. */
  lemma RemoveByIdKeepsConsistent(els: seq<PatchElement>, id: string)
    requires Consistent(els)
    ensures Consistent(RemoveById(els, id))
  {
    RemoveKeepsUnique(els, id);
    RemoveCountSelected(els, id);
  }

  lemma {:induction false} RemoveKeepsUnique(els: seq<PatchElement>, id: string)
    requires UniqueIds(els)
    ensures UniqueIds(RemoveById(els, id))
  {
    if els != [] {
      assert els == [els[0]] + els[1..];
      UniqueIdsCons(els[0], els[1..]);
      RemoveKeepsUnique(els[1..], id);
      if els[0].id != id {
        RemoveOnlyDrops(els[1..], id, els[0].id);
        UniqueIdsCons(els[0], RemoveById(els[1..], id));
      }
    }
  }

  /** An id found after a removal was there before it. */
  lemma {:induction false} RemoveOnlyDrops(els: seq<PatchElement>, id: string, x: string)
    ensures HasId(RemoveById(els, id), x) ==> HasId(els, x)
  {
    if els != [] {
      RemoveOnlyDrops(els[1..], id, x);
      HasIdCons(els, x);
      var t := RemoveById(els[1..], id);
      if els[0].id != id {
        HasIdCons([els[0]] + t, x);
        assert ([els[0]] + t)[1..] == t;
      }
    }
  }

  /** A list with a head is unique-id exactly when the tail is and does not carry the head's id. */
  lemma UniqueIdsCons(h: PatchElement, t: seq<PatchElement>)
    ensures UniqueIds([h] + t) <==> !HasId(t, h.id) && UniqueIds(t)
  {
    var r := [h] + t;
    if UniqueIds(r) {
      forall i | 0 <= i < |t| ensures t[i].id != h.id {
        assert r[0] == h && r[i + 1] == t[i];
        assert r[0].id != r[i + 1].id;
      }
      forall i, j | 0 <= i < j < |t| ensures t[i].id != t[j].id {
        assert r[i + 1] == t[i] && r[j + 1] == t[j];
      }
    }
    if !HasId(t, h.id) && UniqueIds(t) {
      forall i, j | 0 <= i < j < |r| ensures r[i].id != r[j].id {
        assert r[j] == t[j - 1];
        if i > 0 {
          assert r[i] == t[i - 1];
        }
      }
    }
  }

  lemma {:induction false} RemoveCountSelected(els: seq<PatchElement>, id: string)
    ensures CountSelected(RemoveById(els, id)) <= CountSelected(els)
  {
    if els != [] {
      RemoveCountSelected(els[1..], id);
      var t := RemoveById(els[1..], id);
      if els[0].id == id {
        assert RemoveById(els, id) == t;
      } else {
        assert RemoveById(els, id) == [els[0]] + t;
        assert ([els[0]] + t)[1..] == t;
      }
    }
  }

  // ----- Set the selection flag (`selectElement`) -----

  /** Every element with its `selected` flag set to whether its id is `id`. */
  function SelectById(els: seq<PatchElement>, id: string): (r: seq<PatchElement>)
    ensures |r| == |els|
  {
    if els == [] then []
    else [els[0].(selected := els[0].id == id)] + SelectById(els[1..], id)
  }

  /** Element by element: the flag becomes `el.id == id` and every other field is kept. */
  lemma {:induction false} SelectByIdAt(els: seq<PatchElement>, id: string, i: int)
    requires 0 <= i < |els|
    ensures SelectById(els, id)[i] == els[i].(selected := els[i].id == id)
  {
    if i > 0 {
      SelectByIdAt(els[1..], id, i - 1);
    }
  }

  /** As many elements end up selected as carry `id`. */
  lemma {:induction false} SelectByIdCount(els: seq<PatchElement>, id: string)
    ensures CountSelected(SelectById(els, id)) == CountId(els, id)
  {
    if els != [] {
      SelectByIdCount(els[1..], id);
    }
  }

  /**
   * With unique ids and `id` present, exactly one element is selected and it
   * is the one with `id`; the selection is tracked in agreement with the flags.
   */
  lemma SelectByIdExactlyOne(els: seq<PatchElement>, id: string)
    requires UniqueIds(els) && HasId(els, id)
    ensures CountSelected(SelectById(els, id)) == 1
    ensures SelectionAgrees(SelectById(els, id), Some(id))
  {
    SelectByIdCount(els, id);
    UniqueCountAtMostOne(els, id);
    CountIdPositive(els, id);
    SelectByIdKeepsInvariants(els, id);
  }

  /** With unique ids, selecting keeps the list consistent and in agreement with the tracked id, present or not. */
  lemma SelectByIdKeepsInvariants(els: seq<PatchElement>, id: string)
    requires UniqueIds(els)
    ensures Consistent(SelectById(els, id))
    ensures SelectionAgrees(SelectById(els, id), Some(id))
  {
    var r := SelectById(els, id);
    forall i | 0 <= i < |els| ensures r[i] == els[i].(selected := els[i].id == id) {
      SelectByIdAt(els, id, i);
    }
    SelectByIdCount(els, id);
    UniqueCountAtMostOne(els, id);
  }

  // ----- Append (`addTextElement`, `addIconElement`) -----

  /** Appending an unselected element with a fresh id keeps the list consistent and the tracked selection in agreement. */
  lemma AppendKeepsInvariants(els: seq<PatchElement>, e: PatchElement, sel: Option<string>)
    requires !e.selected
    ensures Consistent(els) && !HasId(els, e.id) ==> Consistent(els + [e])
    ensures SelectionAgrees(els, sel) && (sel.Some? ==> sel.value != e.id) ==> SelectionAgrees(els + [e], sel)
  {
    CountSelectedAppend(els, e);
    var r := els + [e];
    forall i, j | 0 <= i < j < |r| && UniqueIds(els) && !HasId(els, e.id) ensures r[i].id != r[j].id {
      if j == |els| {
        assert r[i] == els[i];
      }
    }
  }
}
