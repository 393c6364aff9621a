/**
 * The patch editor: the design being edited, the id of the element the
 * panels act on, the text typed but not yet added, and the order quantity,
 * with one method per handler the editor's controls call.
 */
module ConstructorPage {
  import opened Wrappers
  import JsString
  import opened Design
  import Order

  /** A one-click colour scheme: background and border together. */
  datatype Template = Template(name: string, background: string, border: string)

  /** The popular templates the editor offers. */
  const PopularTemplates: seq<Template> := [
    Template("ЗСУ", "#2D5016", "#FFD700"),
    Template("Поліція", "#000080", "#FFFFFF"),
    Template("ДСНС", "#FF4500", "#FFFFFF"),
    Template("Медик", "#FFFFFF", "#FF0000")
  ]

  class PatchConstructor {
    var design: PatchDesign
    /** The id the tool panels act on; `None` is JavaScript's `null`. */
    var selectedElement: Option<string>
    /** The text typed into the "add text" field. */
    var textInput: string
    var quantity: int

    /** The quantity is at least one; every handler keeps this. */
    ghost predicate Valid()
      reads this
    {
      quantity >= 1
    }

    /**
     * The element list has unique ids and at most one selected element, and
     * a tracked selection agrees with the flags. Each handler states in its
     * own contract under which condition it keeps this.
     */
    ghost predicate Coherent()
      reads this
    {
      Consistent(design.elements) && SelectionAgrees(design.elements, selectedElement)
    }

    constructor ()
      ensures Valid() && Coherent()
      ensures design == InitialDesign
      ensures selectedElement == None && textInput == "" && quantity == Order.InitialQuantity
    {
      design := InitialDesign;
      selectedElement := None;
      textInput := "";
      quantity := Order.InitialQuantity;
    }

    /** The element the tool panels show: the first one carrying the tracked id, if any. */
    function SelectedElementData(): (r: Option<PatchElement>)
      reads this
      ensures r.Some? <==> selectedElement.Some? && HasId(design.elements, selectedElement.value)
      ensures r.Some? ==> r.value in design.elements && r.value.id == selectedElement.value
      ensures selectedElement.Some? ==>
        forall i ::
          (0 <= i < |design.elements| && design.elements[i].id == selectedElement.value &&
           (forall j :: 0 <= j < i ==> design.elements[j].id != selectedElement.value))
          ==> r == Some(design.elements[i])
    {
      if selectedElement.None? then None
      else
        FindByIdFirst(design.elements, selectedElement.value);
        FindById(design.elements, selectedElement.value)
    }

    /** The text field's change handler. */
    method SetTextInput(value: string)
      modifies this`textInput
      ensures textInput == value
    {
      textInput := value;
    }

    /**
     * "Add text": a blank input does nothing; otherwise a white 100x20 Arial
     * text element with the input as typed (not trimmed), centred on the
     * canvas midpoint, is appended and the input is cleared. `id` stands for
     * the timestamp the handler reads from the clock.
     */
    method AddTextElement(id: string)
      modifies this`design, this`textInput
      ensures JsString.IsBlank(old(textInput)) ==> design == old(design) && textInput == old(textInput)
      ensures !JsString.IsBlank(old(textInput)) ==>
        && |design.elements| == |old(design.elements)| + 1
        && design.elements[..|old(design.elements)|] == old(design.elements)
        && design == old(design).(elements := design.elements)
        && textInput == ""
      ensures !JsString.IsBlank(old(textInput)) ==>
        var e := design.elements[|old(design.elements)|];
        && e.id == id && e.kind == Text && e.content == old(textInput)
        && e.x == old(design.size) / 2.0 - 50.0 && e.y == old(design.size) / 2.0 - 10.0
        && e.width == 100.0 && e.height == 20.0 && e.color == "#FFFFFF"
        && e.fontSize == Some(16.0) && e.fontFamily == Some("Arial")
        && e.rotation == 0.0 && !e.selected
      ensures old(Coherent()) && !HasId(old(design.elements), id) && old(selectedElement) != Some(id) ==> Coherent()
    {
      if JsString.Trim(textInput) == "" {
        return;
      }
      var e := PatchElement(id, Text, textInput, design.size / 2.0 - 50.0, design.size / 2.0 - 10.0,
                            100.0, 20.0, "#FFFFFF", Some(16.0), Some("Arial"), 0.0, false);
      AppendKeepsInvariants(design.elements, e, selectedElement);
      design := design.(elements := design.elements + [e]);
      textInput := "";
    }

    /**
     * Clicking an icon in the catalogue: appends a gold 30x30 icon element
     * named `name`, centred on the canvas midpoint. `id` stands for the clock
     * timestamp.
     */
    method AddIconElement(id: string, name: string)
      modifies this`design
      ensures |design.elements| == |old(design.elements)| + 1
      ensures design.elements[..|old(design.elements)|] == old(design.elements)
      ensures design == old(design).(elements := design.elements)
      ensures var e := design.elements[|old(design.elements)|];
        && e.id == id && e.kind == Icon && e.content == name
        && e.x == old(design.size) / 2.0 - 15.0 && e.y == old(design.size) / 2.0 - 15.0
        && e.width == 30.0 && e.height == 30.0 && e.color == "#FFD700"
        && e.fontSize == None && e.fontFamily == None
        && e.rotation == 0.0 && !e.selected
      ensures old(Coherent()) && !HasId(old(design.elements), id) && old(selectedElement) != Some(id) ==> Coherent()
    {
      var e := PatchElement(id, Icon, name, design.size / 2.0 - 15.0, design.size / 2.0 - 15.0,
                            30.0, 30.0, "#FFD700", None, None, 0.0, false);
      AppendKeepsInvariants(design.elements, e, selectedElement);
      design := design.(elements := design.elements + [e]);
    }

    /**
     * Merges `updates` into every element carrying `id` (the panels send a
     * font size, a colour, or a width and height together). An unknown id
     * changes nothing.
     */
    method UpdateElement(id: string, updates: ElementPatch)
      modifies this`design
      ensures design == old(design).(elements := UpdateById(old(design.elements), id, updates))
      ensures !HasId(old(design.elements), id) ==> design == old(design)
      ensures old(Coherent()) && updates.id.None? && updates.selected.None? ==> Coherent()
    {
      UpdateByIdKeepsInvariants(design.elements, id, updates, selectedElement);
      if !HasId(design.elements, id) {
        UpdateByIdAbsent(design.elements, id, updates);
      }
      design := design.(elements := UpdateById(design.elements, id, updates));
    }

    /**
     * Removes every element carrying `id` and clears the tracked selection,
     * whether or not the removed element was the selected one.
     */
    method DeleteElement(id: string)
      modifies this`design, this`selectedElement
      ensures design == old(design).(elements := RemoveById(old(design.elements), id))
      ensures |design.elements| == |old(design.elements)| - CountId(old(design.elements), id)
      ensures !HasId(old(design.elements), id) ==> design == old(design)
      ensures selectedElement == None
      ensures old(Coherent()) ==> Coherent()
    {
      if Consistent(design.elements) {
        RemoveByIdKeepsConsistent(design.elements, id);
      }
      if !HasId(design.elements, id) {
        RemoveByIdAbsent(design.elements, id);
      }
      design := design.(elements := RemoveById(design.elements, id));
      selectedElement := None;
    }

    /**
     * Clicking an element: tracks `id` as the selection and flags exactly the
     * elements carrying `id` as selected.
     */
    method SelectElement(id: string)
      modifies this`design, this`selectedElement
      ensures selectedElement == Some(id)
      ensures design == old(design).(elements := SelectById(old(design.elements), id))
      ensures UniqueIds(old(design.elements)) ==> Coherent()
      ensures UniqueIds(old(design.elements)) && HasId(old(design.elements), id) ==> CountSelected(design.elements) == 1
    {
      if UniqueIds(design.elements) {
        SelectByIdKeepsInvariants(design.elements, id);
        if HasId(design.elements, id) {
          SelectByIdExactlyOne(design.elements, id);
        }
      }
      selectedElement := Some(id);
      design := design.(elements := SelectById(design.elements, id));
    }

    /** A shape button. */
    method SetShape(shape: PatchShape)
      modifies this`design
      ensures design == old(design).(shape := shape)
      ensures design.elements == old(design.elements)
    {
      design := design.(shape := shape);
    }

    /** The size slider; the slider, not the editor, limits it to 100..300 in steps of 10. */
    method SetSize(size: real)
      modifies this`design
      ensures design == old(design).(size := size)
      ensures design.elements == old(design.elements)
    {
      design := design.(size := size);
    }

    /** The border-width slider; the slider limits it to 0..10. */
    method SetBorderWidth(borderWidth: real)
      modifies this`design
      ensures design == old(design).(borderWidth := borderWidth)
      ensures design.elements == old(design.elements)
    {
      design := design.(borderWidth := borderWidth);
    }

    /** A background colour swatch. */
    method SetBackgroundColor(color: string)
      modifies this`design
      ensures design == old(design).(backgroundColor := color)
      ensures design.elements == old(design.elements)
    {
      design := design.(backgroundColor := color);
    }

    /** A border colour swatch. */
    method SetBorderColor(color: string)
      modifies this`design
      ensures design == old(design).(borderColor := color)
      ensures design.elements == old(design.elements)
    {
      design := design.(borderColor := color);
    }

    /** A template button: sets background and border colour together. */
    method ApplyTemplate(template: Template)
      modifies this`design
      ensures design == old(design).(backgroundColor := template.background, borderColor := template.border)
      ensures design.elements == old(design.elements)
    {
      design := design.(backgroundColor := template.background, borderColor := template.border);
    }

    /** The minus button. */
    method DecrementQuantity()
      modifies this`quantity
      ensures quantity == Order.Next(old(quantity), Order.Decrease)
      ensures Valid()
    {
      quantity := Order.Decremented(quantity);
    }

    /** The plus button. */
    method IncrementQuantity()
      requires Valid()
      modifies this`quantity
      ensures quantity == Order.Next(old(quantity), Order.Increase)
      ensures Valid()
    {
      quantity := quantity + 1;
    }

    /** Typing into the quantity field; `parsed` is what `parseInt` made of the text, `None` for `NaN`. */
    method EnterQuantity(parsed: Option<int>)
      modifies this`quantity
      ensures quantity == Order.Next(old(quantity), Order.Enter(parsed))
      ensures Valid()
    {
      quantity := Order.Entered(parsed);
    }

    /** The total shown twice on the order panel. */
    function Total(): (total: int)
      reads this
      requires Valid()
      ensures total == Order.UnitPrice * quantity
      ensures total >= Order.UnitPrice
    {
      Order.Total(quantity)
    }
  }

  /**
   * The editing session walked through end to end: add a text, add an icon,
   * select the text, delete it. What is asserted follows from the handlers'
   * contracts alone.
   */
  method TextThenIconSession()
  {
    var editor := new PatchConstructor();
    editor.SetTextInput("ALPHA");
    assert !JsString.IsBlank(editor.textInput) by {
      assert !JsString.IsWhiteSpace(editor.textInput[0]);
    }
    editor.AddTextElement("t1");
    assert |editor.design.elements| == 1;
    var text := editor.design.elements[0];
    assert text.kind == Text && text.content == "ALPHA" && text.x == 50.0 && text.y == 90.0;
    assert editor.textInput == "";

    editor.AddIconElement("i1", "Щит");
    assert |editor.design.elements| == 2 && editor.design.elements[0] == text;
    var icon := editor.design.elements[1];
    assert icon.kind == Icon && icon.content == "Щит" && icon.x == 85.0 && icon.y == 85.0;

    SelectThenDeleteFirst(editor);
    assert editor.Total() == 150;
  }

  /** The rest of the session: select the first of two elements, then delete it; the second one remains. */
  method SelectThenDeleteFirst(editor: PatchConstructor)
    requires |editor.design.elements| == 2
    requires editor.design.elements[0].id != editor.design.elements[1].id
    modifies editor
    ensures editor.design.elements == [old(editor.design.elements[1]).(selected := false)]
    ensures editor.selectedElement == None
    ensures editor.quantity == old(editor.quantity)
  {
    var first, second := editor.design.elements[0], editor.design.elements[1];
    editor.SelectElement(first.id);
    SelectByIdAt([first, second], first.id, 0);
    SelectByIdAt([first, second], first.id, 1);
    assert editor.design.elements[0].selected && !editor.design.elements[1].selected;

    var flagged := editor.design.elements;
    editor.DeleteElement(first.id);
    assert RemoveById(flagged, first.id) == [flagged[1]];
  }
}
