/**
 * The example widgets of JSVNuFlexiArch: each keeps its state in private fields,
 * writes it to its own elements through the Document facade, hands it back as a DTO,
 * and renders a fixed body whose element ids come from its unique name.
 *
 * A setter stores the raw value and writes to the document; a write that throws (the
 * element is missing) still leaves the field set. The source stores the field first;
 * here the store comes after the write, which touches none of the widget's fields, so
 * the end state is the same.
 */
module Widgets {
  import opened Wrappers
  import opened Browser
  import opened ElementFacade
  import opened DocumentFacade
  import opened ObjectCache
  import opened Components
  import opened ComponentHelpers
  import ElementJs

  /** `id="<id>"`, the attribute through which a rendered body names an element. */
  function IdAttr(id: string): string {
    "id=\"" + id + "\""
  }

  /** `t` occurs in `s`. */
  ghost predicate Contains(s: string, t: string) {
    exists i, j :: 0 <= i <= j <= |s| && s[i..j] == t
  }

  lemma ContainsMiddle(a: string, b: string, c: string)
    ensures Contains(a + b + c, b)
  {
    assert (a + b + c)[|a|..|a| + |b|] == b;
  }

  lemma ContainsExtend(a: string, b: string, t: string)
    requires Contains(a, t)
    ensures Contains(a + b, t)
  {
    var i, j :| 0 <= i <= j <= |a| && a[i..j] == t;
    assert (a + b)[i..j] == t;
  }

  /** `Environment.NewLine + <label id="labelId" for="id"></label>`. */
  function LabelHtml(labelId: string, id: string): string {
    NewLine + "<label " + IdAttr(labelId) + " for=\"" + id + "\"></label>"
  }

  lemma LabelHtmlNames(labelId: string, id: string)
    ensures Contains(LabelHtml(labelId, id), IdAttr(labelId))
  {
    var tail := " for=\"" + id + "\"></label>";
    assert LabelHtml(labelId, id) == NewLine + "<label " + IdAttr(labelId) + tail;
    ContainsMiddle(NewLine + "<label ", IdAttr(labelId), tail);
  }

  /** A value written as a DTO's null-coalesced text: `val ?? ""`. */
  function TextOrEmpty(val: Option<string>): string {
    val.GetOr("")
  }

  /** `JSVTextInput`: a label and a text input. */
  class TextInput {
    const core: ComponentCore
    const id: string
    const labelId: string
    var labelValue: Option<string>
    var textValue: Option<string>

    constructor(uniqueName: string, platform: Platform)
      ensures fresh(core) && fresh(core.metadata)
      ensures core.renderer == Wrapping && core.metadata.list == InitialMetadata(uniqueName, platform.typeNames(TextInputKind))
      ensures id == AppendElementSuffix(uniqueName, "InputId") && labelId == AppendElementSuffix(uniqueName, "LabelId")
      ensures labelValue == None && textValue == None
    {
      core := new ComponentCore(uniqueName, platform.typeNames(TextInputKind));
      id := AppendElementSuffix(uniqueName, "InputId");
      labelId := AppendElementSuffix(uniqueName, "LabelId");
      labelValue := None;
      textValue := None;
    }

    /** `SetLabel(val)`: stores `val` as given and writes `val ?? ""` to the label's innerHTML. */
    method SetLabel(val: Option<string>, page: Page) returns (o: Outcome)
      requires page.Valid()
      modifies this`labelValue, page.Repr()
      ensures page.Valid() && page.rt.collected == old(page.rt.collected) && fresh(page.Repr() - old(page.Repr()))
      ensures labelValue == val
      ensures o.Pass? ==> PropertyWritten(old(page.rt.dom), page.rt.dom, old(page.Target(labelId)), "innerHTML", Text(TextOrEmpty(val)), page.rt.parseIds)
      ensures o.Fail? ==> page.rt.dom == old(page.rt.dom)
    {
      assert Marshal(StringValue(TextOrEmpty(val))) == Ok(Text(TextOrEmpty(val)));
      o := SetPropertyOf(page, labelId, "innerHTML", StringValue(TextOrEmpty(val)));
      labelValue := val;
    }

    /** `SetInputValue(val)`: stores `val` and writes it as the input's form value. */
    method SetInputValue(val: Option<string>, page: Page) returns (o: Outcome)
      requires page.Valid()
      modifies this`textValue, page.Repr()
      ensures page.Valid() && page.rt.collected == old(page.rt.collected) && fresh(page.Repr() - old(page.Repr()))
      ensures textValue == val
      ensures o.Pass? ==> PropertyWritten(old(page.rt.dom), page.rt.dom, old(page.Target(id)), "value", if val.Some? then Text(val.value) else Null, page.rt.parseIds)
      ensures o.Fail? ==> page.rt.dom == old(page.rt.dom)
    {
      o := SetFormElemOf(page, id, "value", if val.Some? then Text(val.value) else Null);
      textValue := val;
    }

    /** `GetState()`. */
    function GetState(): CompDataDto
      reads this
    {
      TextInputDto(labelValue, textValue)
    }

    /**
     * `UpdateState(dto)`: a DTO of another class is an ArgumentException and changes
     * nothing; otherwise label and input value are set in that order, and when both
     * writes succeed `GetState` gives the DTO back.
     */
    method UpdateState(dto: CompDataDto, page: Page) returns (r: Result<bool>)
      requires page.Valid()
      modifies this`labelValue, this`textValue, page.Repr()
      ensures page.Valid() && page.rt.collected == old(page.rt.collected) && fresh(page.Repr() - old(page.Repr()))
      ensures !dto.TextInputDto? ==> r == Err(ArgumentError) && GetState() == old(GetState()) && page.rt.dom == old(page.rt.dom)
      ensures dto.TextInputDto? ==> labelValue == dto.labelText && (textValue == dto.inputValue || (r.Err? && textValue == old(textValue)))
      ensures r.Ok? ==> r == Ok(true) && GetState() == dto
    {
      if !dto.TextInputDto? {
        return Err(ArgumentError);
      }
      var o := SetLabel(dto.labelText, page);
      if o.Fail? {
        return Err(o.error);
      }
      o := SetInputValue(dto.inputValue, page);
      if o.Fail? {
        return Err(o.error);
      }
      r := Ok(true);
    }

    /** `RenderBody`: the label, then a text input. */
    function BodyHtml(): string {
      LabelHtml(labelId, id) + NewLine + "<input " + IdAttr(id) + " type=\"text\"/>"
    }

    /** The body renders both elements the setters write to. */
    lemma BodyNamesElements()
      ensures Contains(BodyHtml(), IdAttr(labelId)) && Contains(BodyHtml(), IdAttr(id))
    {
      LabelHtmlNames(labelId, id);
      var input := NewLine + "<input " + IdAttr(id) + " type=\"text\"/>";
      assert BodyHtml() == LabelHtml(labelId, id) + input;
      ContainsExtend(LabelHtml(labelId, id), input, IdAttr(labelId));
      assert BodyHtml() == LabelHtml(labelId, id) + NewLine + "<input " + IdAttr(id) + " type=\"text\"/>";
      ContainsMiddle(LabelHtml(labelId, id) + NewLine + "<input ", IdAttr(id), " type=\"text\"/>");
    }
  }

  /** `JSVCheckbox`: a label and a checkbox. */
  class Checkbox {
    const core: ComponentCore
    const id: string
    const labelId: string
    var labelValue: Option<string>
    var isChecked: Option<bool>

    constructor(uniqueName: string, platform: Platform)
      ensures fresh(core) && fresh(core.metadata)
      ensures core.renderer == Wrapping && core.metadata.list == InitialMetadata(uniqueName, platform.typeNames(CheckboxKind))
      ensures id == AppendElementSuffix(uniqueName, "InputId") && labelId == AppendElementSuffix(uniqueName, "LabelId")
      ensures labelValue == None && isChecked == None
    {
      core := new ComponentCore(uniqueName, platform.typeNames(CheckboxKind));
      id := AppendElementSuffix(uniqueName, "InputId");
      labelId := AppendElementSuffix(uniqueName, "LabelId");
      labelValue := None;
      isChecked := None;
    }

    /** `SetLabel(val)`: stores `val` as given and writes `val ?? ""` to the label's innerHTML. */
    method SetLabel(val: Option<string>, page: Page) returns (o: Outcome)
      requires page.Valid()
      modifies this`labelValue, page.Repr()
      ensures page.Valid() && page.rt.collected == old(page.rt.collected) && fresh(page.Repr() - old(page.Repr()))
      ensures labelValue == val
      ensures o.Pass? ==> PropertyWritten(old(page.rt.dom), page.rt.dom, old(page.Target(labelId)), "innerHTML", Text(TextOrEmpty(val)), page.rt.parseIds)
      ensures o.Fail? ==> page.rt.dom == old(page.rt.dom)
    {
      assert Marshal(StringValue(TextOrEmpty(val))) == Ok(Text(TextOrEmpty(val)));
      o := SetPropertyOf(page, labelId, "innerHTML", StringValue(TextOrEmpty(val)));
      labelValue := val;
    }

    /** `SetIsChecked(b)`: stores `b` and writes it as the checkbox's checked state. */
    method SetIsChecked(b: bool, page: Page) returns (o: Outcome)
      requires page.Valid()
      modifies this`isChecked, page.Repr()
      ensures page.Valid() && page.rt.collected == old(page.rt.collected) && fresh(page.Repr() - old(page.Repr()))
      ensures isChecked == Some(b)
      ensures o.Pass? ==> PropertyWritten(old(page.rt.dom), page.rt.dom, old(page.Target(id)), "checked", Boolean(b), page.rt.parseIds)
      ensures o.Fail? ==> page.rt.dom == old(page.rt.dom)
    {
      o := SetFormElemOf(page, id, "checked", Boolean(b));
      isChecked := Some(b);
    }

    /** `GetIsChecked()`: the stored state, false while none has been set. */
    function GetIsChecked(): bool
      reads this
    {
      isChecked.GetOr(false)
    }

    /** `GetState()`. */
    function GetState(): CompDataDto
      reads this
    {
      CheckboxDto(labelValue, GetIsChecked())
    }

    /** `UpdateState(dto)`: label, then checked state; when both writes succeed `GetState` gives the DTO back. */
    method UpdateState(dto: CompDataDto, page: Page) returns (r: Result<bool>)
      requires page.Valid()
      modifies this`labelValue, this`isChecked, page.Repr()
      ensures page.Valid() && page.rt.collected == old(page.rt.collected) && fresh(page.Repr() - old(page.Repr()))
      ensures !dto.CheckboxDto? ==> r == Err(ArgumentError) && GetState() == old(GetState()) && page.rt.dom == old(page.rt.dom)
      ensures dto.CheckboxDto? ==> labelValue == dto.labelText && (isChecked == Some(dto.isChecked) || (r.Err? && isChecked == old(isChecked)))
      ensures r.Ok? ==> r == Ok(true) && GetState() == dto
    {
      if !dto.CheckboxDto? {
        return Err(ArgumentError);
      }
      var o := SetLabel(dto.labelText, page);
      if o.Fail? {
        return Err(o.error);
      }
      o := SetIsChecked(dto.isChecked, page);
      if o.Fail? {
        return Err(o.error);
      }
      r := Ok(true);
    }

    /** `RenderBody`: the label, then a checkbox input. */
    function BodyHtml(): string {
      LabelHtml(labelId, id) + NewLine + "<input " + IdAttr(id) + " type=\"checkbox\"/>"
    }

    /** The body renders both elements the setters write to. */
    lemma BodyNamesElements()
      ensures Contains(BodyHtml(), IdAttr(labelId)) && Contains(BodyHtml(), IdAttr(id))
    {
      LabelHtmlNames(labelId, id);
      var input := NewLine + "<input " + IdAttr(id) + " type=\"checkbox\"/>";
      assert BodyHtml() == LabelHtml(labelId, id) + input;
      ContainsExtend(LabelHtml(labelId, id), input, IdAttr(labelId));
      ContainsMiddle(LabelHtml(labelId, id) + NewLine + "<input ", IdAttr(id), " type=\"checkbox\"/>");
    }
  }

  /** `JSVButton`: a label and a button. */
  class Button {
    const core: ComponentCore
    const id: string
    const labelId: string
    var labelValue: Option<string>
    var text: Option<string>
    var isDisabled: Option<bool>

    constructor(uniqueName: string, platform: Platform)
      ensures fresh(core) && fresh(core.metadata)
      ensures core.renderer == Wrapping && core.metadata.list == InitialMetadata(uniqueName, platform.typeNames(ButtonKind))
      ensures id == AppendElementSuffix(uniqueName, "InputId") && labelId == AppendElementSuffix(uniqueName, "LabelId")
      ensures labelValue == None && text == None && isDisabled == None
    {
      core := new ComponentCore(uniqueName, platform.typeNames(ButtonKind));
      id := AppendElementSuffix(uniqueName, "InputId");
      labelId := AppendElementSuffix(uniqueName, "LabelId");
      labelValue := None;
      text := None;
      isDisabled := None;
    }

    /** `SetLabel(val)`: stores `val` as given and writes `val ?? ""` to the label's innerHTML. */
    method SetLabel(val: Option<string>, page: Page) returns (o: Outcome)
      requires page.Valid()
      modifies this`labelValue, page.Repr()
      ensures page.Valid() && page.rt.collected == old(page.rt.collected) && fresh(page.Repr() - old(page.Repr()))
      ensures TokensGrown(old(page.Tokens()), page.Tokens())
      ensures labelValue == val
      ensures o.Pass? ==> PropertyWritten(old(page.rt.dom), page.rt.dom, old(page.Target(labelId)), "innerHTML", Text(TextOrEmpty(val)), page.rt.parseIds)
      ensures o.Fail? ==> page.rt.dom == old(page.rt.dom)
    {
      assert Marshal(StringValue(TextOrEmpty(val))) == Ok(Text(TextOrEmpty(val)));
      o := SetPropertyOf(page, labelId, "innerHTML", StringValue(TextOrEmpty(val)));
      labelValue := val;
    }

    /** `SetText(val)`: stores `val` as given and writes `val ?? ""` to the button's innerHTML. */
    method SetText(val: Option<string>, page: Page) returns (o: Outcome)
      requires page.Valid()
      modifies this`text, page.Repr()
      ensures page.Valid() && page.rt.collected == old(page.rt.collected) && fresh(page.Repr() - old(page.Repr()))
      ensures TokensGrown(old(page.Tokens()), page.Tokens())
      ensures text == val
      ensures o.Pass? ==> PropertyWritten(old(page.rt.dom), page.rt.dom, old(page.Target(id)), "innerHTML", Text(TextOrEmpty(val)), page.rt.parseIds)
      ensures o.Fail? ==> page.rt.dom == old(page.rt.dom)
    {
      assert Marshal(StringValue(TextOrEmpty(val))) == Ok(Text(TextOrEmpty(val)));
      o := SetPropertyOf(page, id, "innerHTML", StringValue(TextOrEmpty(val)));
      text := val;
    }

    /** `SetDisabled(v)`: stores `v` as given and writes `v ?? false` to the button's `disabled`. */
    method SetDisabled(v: Option<bool>, page: Page) returns (o: Outcome)
      requires page.Valid()
      modifies this`isDisabled, page.Repr()
      ensures page.Valid() && page.rt.collected == old(page.rt.collected) && fresh(page.Repr() - old(page.Repr()))
      ensures TokensGrown(old(page.Tokens()), page.Tokens())
      ensures isDisabled == v
      ensures o.Pass? ==> PropertyWritten(old(page.rt.dom), page.rt.dom, old(page.Target(id)), "disabled", Boolean(v.GetOr(false)), page.rt.parseIds)
      ensures o.Fail? ==> page.rt.dom == old(page.rt.dom)
    {
      assert Marshal(BoolValue(v.GetOr(false))) == Ok(Boolean(v.GetOr(false)));
      o := SetPropertyOf(page, id, "disabled", BoolValue(v.GetOr(false)));
      isDisabled := v;
    }

    /** `GetDisabled()`: the stored flag, false while none has been set. */
    function GetDisabled(): bool
      reads this
    {
      isDisabled.GetOr(false)
    }

    /** `GetState()`: reports the disabled flag through `GetDisabled`, so never as null. */
    function GetState(): CompDataDto
      reads this
    {
      ButtonDto(labelValue, text, Some(GetDisabled()))
    }

    /**
     * `UpdateState(dto)`: label, text, then disabled flag. When all three writes succeed
     * `GetState` gives the DTO back, except that a null `IsDisabled` comes back as false.
     */
    method UpdateState(dto: CompDataDto, page: Page) returns (r: Result<bool>)
      requires page.Valid()
      modifies this`labelValue, this`text, this`isDisabled, page.Repr()
      ensures page.Valid() && page.rt.collected == old(page.rt.collected) && fresh(page.Repr() - old(page.Repr()))
      ensures TokensGrown(old(page.Tokens()), page.Tokens())
      ensures !dto.ButtonDto? ==> r == Err(ArgumentError) && GetState() == old(GetState()) && page.rt.dom == old(page.rt.dom)
      ensures dto.ButtonDto? ==>
        && labelValue == dto.labelText
        && (text == dto.text || (r.Err? && text == old(text)))
        && (isDisabled == dto.isDisabled || (r.Err? && isDisabled == old(isDisabled)))
      ensures r.Ok? ==> r == Ok(true) && GetState() == dto.(isDisabled := Some(dto.isDisabled.GetOr(false)))
      ensures r.Ok? ==> (GetState() == dto <==> dto.isDisabled.Some?)
    {
      if !dto.ButtonDto? {
        return Err(ArgumentError);
      }
      var o := SetLabel(dto.labelText, page);
      if o.Fail? {
        return Err(o.error);
      }
      o := SetText(dto.text, page);
      if o.Fail? {
        return Err(o.error);
      }
      o := SetDisabled(dto.isDisabled, page);
      if o.Fail? {
        return Err(o.error);
      }
      r := Ok(true);
    }

    /** `RenderBody`: the label, then the button. */
    function BodyHtml(): string {
      LabelHtml(labelId, id) + NewLine + "<button " + IdAttr(id) + "></button>"
    }

    /** The body renders both elements the setters write to. */
    lemma BodyNamesElements()
      ensures Contains(BodyHtml(), IdAttr(labelId)) && Contains(BodyHtml(), IdAttr(id))
    {
      LabelHtmlNames(labelId, id);
      var button := NewLine + "<button " + IdAttr(id) + "></button>";
      assert BodyHtml() == LabelHtml(labelId, id) + button;
      ContainsExtend(LabelHtml(labelId, id), button, IdAttr(labelId));
      ContainsMiddle(LabelHtml(labelId, id) + NewLine + "<button ", IdAttr(id), "></button>");
    }
  }

  /** `JSVTextDisplay`: a span of text. */
  class TextDisplay {
    const core: ComponentCore
    const id: string
    var text: Option<string>

    constructor(uniqueName: string, platform: Platform)
      ensures fresh(core) && fresh(core.metadata)
      ensures core.renderer == Wrapping && core.metadata.list == InitialMetadata(uniqueName, platform.typeNames(TextDisplayKind))
      ensures id == AppendElementSuffix(uniqueName, "InputId")
      ensures text == None
    {
      core := new ComponentCore(uniqueName, platform.typeNames(TextDisplayKind));
      id := AppendElementSuffix(uniqueName, "InputId");
      text := None;
    }

    /** `SetText(val)`: stores `val` as given and writes `val ?? ""` to the span's innerHTML. */
    method SetText(val: Option<string>, page: Page) returns (o: Outcome)
      requires page.Valid()
      modifies this`text, page.Repr()
      ensures page.Valid() && page.rt.collected == old(page.rt.collected) && fresh(page.Repr() - old(page.Repr()))
      ensures text == val
      ensures o.Pass? ==> PropertyWritten(old(page.rt.dom), page.rt.dom, old(page.Target(id)), "innerHTML", Text(TextOrEmpty(val)), page.rt.parseIds)
      ensures o.Fail? ==> page.rt.dom == old(page.rt.dom)
      ensures forall k :: page.Target(k) == old(page.Target(k))
    {
      assert Marshal(StringValue(TextOrEmpty(val))) == Ok(Text(TextOrEmpty(val)));
      o := SetPropertyOf(page, id, "innerHTML", StringValue(TextOrEmpty(val)));
      text := val;
    }

    /** `GetState()`: the text getter is not implemented, so the state can never be read back. */
    function GetState(): (r: Result<CompDataDto>)
      ensures r == Err(NotImplemented)
    {
      Err(NotImplemented)
    }

    /** `UpdateState(dto)`: sets the text. */
    method UpdateState(dto: CompDataDto, page: Page) returns (r: Result<bool>)
      requires page.Valid()
      modifies this`text, page.Repr()
      ensures page.Valid() && page.rt.collected == old(page.rt.collected) && fresh(page.Repr() - old(page.Repr()))
      ensures !dto.TextDisplayDto? ==> r == Err(ArgumentError) && text == old(text) && page.rt.dom == old(page.rt.dom)
      ensures dto.TextDisplayDto? ==> text == dto.text
      ensures dto.TextDisplayDto? && r.Ok? ==> PropertyWritten(old(page.rt.dom), page.rt.dom, old(page.Target(id)), "innerHTML", Text(TextOrEmpty(dto.text)), page.rt.parseIds)
      ensures dto.TextDisplayDto? && r.Err? ==> page.rt.dom == old(page.rt.dom)
      ensures forall k :: page.Target(k) == old(page.Target(k))
      ensures r.Ok? ==> r == Ok(true)
    {
      if !dto.TextDisplayDto? {
        return Err(ArgumentError);
      }
      var o := SetText(dto.text, page);
      if o.Fail? {
        return Err(o.error);
      }
      r := Ok(true);
    }

    /** `RenderBody`: the span. */
    function BodyHtml(): string {
      NewLine + "<span " + IdAttr(id) + "></span>"
    }

    /** The body renders the element `SetText` writes to. */
    lemma BodyNamesElements()
      ensures Contains(BodyHtml(), IdAttr(id))
    {
      ContainsMiddle(NewLine + "<span ", IdAttr(id), "></span>");
    }
  }

  /** What the value display shows for a slider value: `_value.ToString()`, which is "" for null. */
  function ValueText(val: Option<real>, format: real -> string): string {
    if val.Some? then format(val.value) else ""
  }

  /** The ids of a slider's own elements and of the elements of its two sub-components are pairwise distinct. */
  lemma {:induction false} SliderElementIdsDistinct(uniqueName: string)
    ensures var ids := [AppendElementSuffix(uniqueName, "InputId"), AppendElementSuffix(uniqueName, "LabelId"),
                        AppendElementSuffix(AppendSubComponentSuffix(uniqueName, "ValueDisplay"), "InputId"),
                        AppendElementSuffix(AppendSubComponentSuffix(uniqueName, "ResetButton"), "InputId"),
                        AppendElementSuffix(AppendSubComponentSuffix(uniqueName, "ResetButton"), "LabelId")];
      forall i, j :: 0 <= i < j < |ids| ==> ids[i] != ids[j]
  {
    var display := AppendSubComponentSuffix(uniqueName, "ValueDisplay");
    var reset := AppendSubComponentSuffix(uniqueName, "ResetButton");
    var a, b := AppendElementSuffix(uniqueName, "InputId"), AppendElementSuffix(uniqueName, "LabelId");
    var c, d, e := AppendElementSuffix(display, "InputId"), AppendElementSuffix(reset, "InputId"), AppendElementSuffix(reset, "LabelId");
    ElementSuffixInjective(uniqueName, "InputId", "LabelId");
    ElementSuffixInjective(reset, "InputId", "LabelId");
    SubComponentIdsDistinct(uniqueName, "InputId", "ValueDisplay", "InputId");
    SubComponentIdsDistinct(uniqueName, "InputId", "ResetButton", "InputId");
    SubComponentIdsDistinct(uniqueName, "InputId", "ResetButton", "LabelId");
    SubComponentIdsDistinct(uniqueName, "LabelId", "ValueDisplay", "InputId");
    SubComponentIdsDistinct(uniqueName, "LabelId", "ResetButton", "InputId");
    SubComponentIdsDistinct(uniqueName, "LabelId", "ResetButton", "LabelId");
    SiblingIdsDistinct(uniqueName, "ValueDisplay", "InputId", "ResetButton", "InputId");
    SiblingIdsDistinct(uniqueName, "ValueDisplay", "InputId", "ResetButton", "LabelId");
    assert a != b && a != c && a != d && a != e && b != c && b != d && b != e && c != d && c != e && d != e;
    var ids := [a, b, c, d, e];
    forall i, j | 0 <= i < j < |ids|
      ensures ids[i] != ids[j]
    {
    }
  }

  /** `JSVSlider`: a label, a range input, a text display of the value and a reset button. */
  class Slider {
    const core: ComponentCore
    const id: string
    const labelId: string
    const valueDisplay: TextDisplay
    const resetButton: Button
    const formatDouble: real -> string
    const parseDouble: string -> Option<real>
    var labelValue: Option<string>
    var value: Option<real>
    var minValue: real
    var maxValue: real
    var step: Option<real>

    /** The sub-components are named by `AppendSubComponentSuffix` and built after the slider's own ids. */
    constructor(uniqueName: string, platform: Platform)
      ensures fresh(core) && fresh(core.metadata)
      ensures core.renderer == Wrapping && core.metadata.list == InitialMetadata(uniqueName, platform.typeNames(SliderKind))
      ensures id == AppendElementSuffix(uniqueName, "InputId") && labelId == AppendElementSuffix(uniqueName, "LabelId")
      ensures fresh(valueDisplay) && fresh(resetButton)
      ensures formatDouble == platform.formatDouble && parseDouble == platform.parseDouble
      ensures valueDisplay.id == AppendElementSuffix(AppendSubComponentSuffix(uniqueName, "ValueDisplay"), "InputId")
      ensures resetButton.id == AppendElementSuffix(AppendSubComponentSuffix(uniqueName, "ResetButton"), "InputId")
      ensures resetButton.labelId == AppendElementSuffix(AppendSubComponentSuffix(uniqueName, "ResetButton"), "LabelId")
      ensures valueDisplay.text == None && resetButton.GetState() == ButtonDto(None, None, Some(false))
      ensures labelValue == None && value == None && minValue == 0.0 && maxValue == 0.0 && step == None
    {
      core := new ComponentCore(uniqueName, platform.typeNames(SliderKind));
      id := AppendElementSuffix(uniqueName, "InputId");
      labelId := AppendElementSuffix(uniqueName, "LabelId");
      valueDisplay := new TextDisplay(AppendSubComponentSuffix(uniqueName, "ValueDisplay"), platform);
      resetButton := new Button(AppendSubComponentSuffix(uniqueName, "ResetButton"), platform);
      formatDouble := platform.formatDouble;
      parseDouble := platform.parseDouble;
      labelValue := None;
      value := None;
      minValue := 0.0;
      maxValue := 0.0;
      step := None;
    }

    /**
     * `Initialize()`: looks up the range input and registers its change listener, gives
     * the reset button the text "Reset Me", then looks up the reset button and registers
     * its click listener. The listener ids are the ones the .NET handler pool assigns to
     * the keys `<Id>_SliderChanged` and `<Id>_ResetClicked`.
     */
    method Initialize(page: Page, pool: ElementJs.ListenerPool, changeListenerId: int, resetListenerId: int) returns (r: Result<bool>)
      requires page.Valid()
      modifies resetButton`labelValue, resetButton`text, resetButton`isDisabled, page.Repr(), pool
      ensures page.Valid() && page.rt.collected == old(page.rt.collected) && fresh(page.Repr() - old(page.Repr()))
      ensures id !in old(page.doc.jsvElements) && id !in old(page.rt.dom.byId) ==>
        r == Err(JsvError) && resetButton.GetState() == old(resetButton.GetState()) && page.rt.dom == old(page.rt.dom)
      ensures r.Ok? ==> r == Ok(true) && resetButton.GetState() == ButtonDto(None, Some("Reset Me"), Some(false))
      ensures r.Ok? ==> changeListenerId != resetListenerId && pool.funcSpace.Keys == old(pool.funcSpace).Keys + {changeListenerId, resetListenerId}
      ensures r.Ok? ==> pool.funcSpace[changeListenerId].eventType == "change" && pool.funcSpace[resetListenerId].eventType == "click"
      ensures r.Ok? ==> old(page.Target(id)) == Some(pool.funcSpace[changeListenerId].elem)
      ensures r.Ok? ==>
        && id in page.Tokens() && Token("change", changeListenerId) in TokensOf(page.Tokens()[id], "change")
        && resetButton.id in page.Tokens() && Token("click", resetListenerId) in TokensOf(page.Tokens()[resetButton.id], "click")
      ensures r.Err? ==> old(pool.funcSpace).Keys <= pool.funcSpace.Keys
      ensures TokensGrown(old(page.Tokens()), page.Tokens())
    {
      var added := AddListenerOf(page, id, "change", changeListenerId, pool);
      if added.Err? {
        return Err(added.error);
      }
      ghost var tokens1 := page.Tokens();
      var wired := WireResetButton(page, pool, resetListenerId);
      if wired.Fail? {
        return Err(wired.error);
      }
      TokenKept(tokens1, page.Tokens(), id, Token("change", changeListenerId));
      r := Ok(true);
    }

    /** The second half of `Initialize`: the reset button gets its text, then its click listener. */
    method WireResetButton(page: Page, pool: ElementJs.ListenerPool, resetListenerId: int) returns (o: Outcome)
      requires page.Valid()
      modifies resetButton`labelValue, resetButton`text, resetButton`isDisabled, page.Repr(), pool
      ensures page.Valid() && page.rt.collected == old(page.rt.collected) && fresh(page.Repr() - old(page.Repr()))
      ensures o.Pass? ==> resetButton.GetState() == ButtonDto(None, Some("Reset Me"), Some(false))
      ensures o.Pass? ==> resetListenerId !in old(pool.funcSpace) && pool.funcSpace.Keys == old(pool.funcSpace).Keys + {resetListenerId}
      ensures o.Pass? ==> pool.funcSpace == old(pool.funcSpace)[resetListenerId := pool.funcSpace[resetListenerId]] && pool.funcSpace[resetListenerId].eventType == "click"
      ensures o.Pass? ==> resetButton.id in page.Tokens() && Token("click", resetListenerId) in TokensOf(page.Tokens()[resetButton.id], "click")
      ensures o.Fail? ==> old(pool.funcSpace) == pool.funcSpace
      ensures TokensGrown(old(page.Tokens()), page.Tokens())
    {
      var updated := resetButton.UpdateState(ButtonDto(None, Some("Reset Me"), None), page);
      if updated.Err? {
        return Fail(updated.error);
      }
      var added := AddListenerOf(page, resetButton.id, "click", resetListenerId, pool);
      if added.Err? {
        return Fail(added.error);
      }
      o := Pass;
    }

    /** `SetLabel(val)`: stores `val` as given and writes `val ?? ""` to the label's innerHTML. */
    method SetLabel(val: Option<string>, page: Page) returns (o: Outcome)
      requires page.Valid()
      modifies this`labelValue, page.Repr()
      ensures page.Valid() && page.rt.collected == old(page.rt.collected) && fresh(page.Repr() - old(page.Repr()))
      ensures labelValue == val
      ensures o.Pass? ==> PropertyWritten(old(page.rt.dom), page.rt.dom, old(page.Target(labelId)), "innerHTML", Text(TextOrEmpty(val)), page.rt.parseIds)
      ensures o.Fail? ==> page.rt.dom == old(page.rt.dom)
    {
      assert Marshal(StringValue(TextOrEmpty(val))) == Ok(Text(TextOrEmpty(val)));
      o := SetPropertyOf(page, labelId, "innerHTML", StringValue(TextOrEmpty(val)));
      labelValue := val;
    }

    /** `SetValue(val)`: stores `val`, writes it as the input's form value, then shows its text in the value display. */
    method SetValue(val: Option<real>, page: Page) returns (o: Outcome)
      requires page.Valid()
      modifies this`value, valueDisplay`text, page.Repr()
      ensures page.Valid() && page.rt.collected == old(page.rt.collected) && fresh(page.Repr() - old(page.Repr()))
      ensures value == val
      ensures o.Pass? ==> valueDisplay.text == Some(ValueText(val, formatDouble))
      ensures valueDisplay.text == old(valueDisplay.text) || valueDisplay.text == Some(ValueText(val, formatDouble))
      ensures o.Pass? ==>
        && old(page.Target(id)).Some? && old(page.Target(valueDisplay.id)).Some?
        && page.rt.dom == AfterSetProperty(
             AfterSetProperty(old(page.rt.dom), old(page.Target(id)).value, "value", if val.Some? then Number(val.value) else JsValue.Null, page.rt.parseIds),
             old(page.Target(valueDisplay.id)).value, "innerHTML", Text(ValueText(val, formatDouble)), page.rt.parseIds)
    {
      o := SetFormElemOf(page, id, "value", if val.Some? then Number(val.value) else JsValue.Null);
      if o.Pass? {
        ghost var written := page.rt.dom;
        assert page.Target(valueDisplay.id) == old(page.Target(valueDisplay.id));
        o := ShowValue(val, page);
        assert o.Pass? ==> PropertyWritten(written, page.rt.dom, old(page.Target(valueDisplay.id)), "innerHTML", Text(ValueText(val, formatDouble)), page.rt.parseIds);
      } else {
        value := val;
      }
    }

    /** The rest of `SetValue` after the input's write: the value display's `UpdateState` with the value's text. */
    method ShowValue(val: Option<real>, page: Page) returns (o: Outcome)
      requires page.Valid()
      modifies this`value, valueDisplay`text, page.Repr()
      ensures page.Valid() && page.rt.collected == old(page.rt.collected) && fresh(page.Repr() - old(page.Repr()))
      ensures value == val
      ensures valueDisplay.text == Some(ValueText(val, formatDouble))
      ensures o.Pass? ==> PropertyWritten(old(page.rt.dom), page.rt.dom, old(page.Target(valueDisplay.id)), "innerHTML", Text(ValueText(val, formatDouble)), page.rt.parseIds)
      ensures forall k :: page.Target(k) == old(page.Target(k))
    {
      var shown := valueDisplay.UpdateState(TextDisplayDto(Some(ValueText(val, formatDouble))), page);
      o := if shown.Ok? then Pass else Fail(shown.error);
      value := val;
    }

    /** `SetMinValue(v)`: stores `v` and writes it to the input's `min`. */
    method SetMinValue(v: real, page: Page) returns (o: Outcome)
      requires page.Valid()
      modifies this`minValue, page.Repr()
      ensures page.Valid() && page.rt.collected == old(page.rt.collected) && fresh(page.Repr() - old(page.Repr()))
      ensures minValue == v
      ensures o.Pass? ==> PropertyWritten(old(page.rt.dom), page.rt.dom, old(page.Target(id)), "min", Number(v), page.rt.parseIds)
      ensures o.Fail? ==> page.rt.dom == old(page.rt.dom)
    {
      assert Marshal(DoubleValue(v)) == Ok(Number(v));
      o := SetPropertyOf(page, id, "min", DoubleValue(v));
      minValue := v;
    }

    /** `SetMaxValue(v)`: stores `v` and writes it to the input's `max`. */
    method SetMaxValue(v: real, page: Page) returns (o: Outcome)
      requires page.Valid()
      modifies this`maxValue, page.Repr()
      ensures page.Valid() && page.rt.collected == old(page.rt.collected) && fresh(page.Repr() - old(page.Repr()))
      ensures maxValue == v
      ensures o.Pass? ==> PropertyWritten(old(page.rt.dom), page.rt.dom, old(page.Target(id)), "max", Number(v), page.rt.parseIds)
      ensures o.Fail? ==> page.rt.dom == old(page.rt.dom)
    {
      assert Marshal(DoubleValue(v)) == Ok(Number(v));
      o := SetPropertyOf(page, id, "max", DoubleValue(v));
      maxValue := v;
    }

    /** `SetStep(v)`: always stores `v`, but writes the input's `step` only when `v` is not null. */
    method SetStep(v: Option<real>, page: Page) returns (o: Outcome)
      requires page.Valid()
      modifies this`step, page.Repr()
      ensures page.Valid() && page.rt.collected == old(page.rt.collected) && fresh(page.Repr() - old(page.Repr()))
      ensures step == v
      ensures v.None? ==> o == Pass && unchanged(page.doc, page.cache, page.rt)
      ensures v.Some? && o.Pass? ==> PropertyWritten(old(page.rt.dom), page.rt.dom, old(page.Target(id)), "step", Number(v.value), page.rt.parseIds)
      ensures o.Fail? ==> page.rt.dom == old(page.rt.dom)
    {
      if v.Some? {
        assert Marshal(DoubleValue(v.value)) == Ok(Number(v.value));
        o := SetPropertyOf(page, id, "step", DoubleValue(v.value));
      } else {
        o := Pass;
      }
      step := v;
    }

    /** `GetState()`. */
    function GetState(): CompDataDto
      reads this
    {
      SliderDto(labelValue, value, minValue, maxValue, step)
    }

    /**
     * `UpdateState(dto)`: label, value, minimum, maximum, then step. When every write
     * succeeds `GetState` gives the DTO back and the value display shows the value.
     */
    method UpdateState(dto: CompDataDto, page: Page) returns (r: Result<bool>)
      requires page.Valid()
      modifies this`labelValue, this`value, this`minValue, this`maxValue, this`step, valueDisplay`text, page.Repr()
      ensures page.Valid() && page.rt.collected == old(page.rt.collected) && fresh(page.Repr() - old(page.Repr()))
      ensures !dto.SliderDto? ==>
        r == Err(ArgumentError) && GetState() == old(GetState()) && valueDisplay.text == old(valueDisplay.text) && page.rt.dom == old(page.rt.dom)
      ensures dto.SliderDto? ==>
        && labelValue == dto.labelText
        && (value == dto.value || (r.Err? && value == old(value)))
        && (minValue == dto.minValue || (r.Err? && minValue == old(minValue)))
        && (maxValue == dto.maxValue || (r.Err? && maxValue == old(maxValue)))
        && (step == dto.step || (r.Err? && step == old(step)))
      ensures r.Ok? ==> r == Ok(true) && GetState() == dto && valueDisplay.text == Some(ValueText(dto.value, formatDouble))
    {
      if !dto.SliderDto? {
        return Err(ArgumentError);
      }
      var o := SetLabel(dto.labelText, page);
      if o.Fail? {
        return Err(o.error);
      }
      o := SetValue(dto.value, page);
      if o.Fail? {
        return Err(o.error);
      }
      OutsidePage(this, page);
      o := SetRange(dto.minValue, dto.maxValue, dto.step, page);
      if o.Fail? {
        return Err(o.error);
      }
      r := Ok(true);
    }

    /** A slider and its parts are none of the page's objects: they are of other classes. */
    static lemma OutsidePage(w: Slider, page: Page)
      ensures w !in page.Repr() && w.valueDisplay !in page.Repr() && w.resetButton !in page.Repr()
    {
    }

    /** The last three steps of `UpdateState`: `SetMinValue`, `SetMaxValue`, then `SetStep`. */
    method SetRange(minV: real, maxV: real, stepV: Option<real>, page: Page) returns (o: Outcome)
      requires page.Valid()
      modifies this`minValue, this`maxValue, this`step, page.Repr()
      ensures page.Valid() && page.rt.collected == old(page.rt.collected) && fresh(page.Repr() - old(page.Repr()))
      ensures minValue == minV
      ensures maxValue == maxV || (o.Fail? && maxValue == old(maxValue))
      ensures step == stepV || (o.Fail? && step == old(step))
      ensures o.Pass? ==> maxValue == maxV && step == stepV
    {
      o := SetMinValue(minV, page);
      if o.Fail? {
        return;
      }
      o := SetMaxValue(maxV, page);
      if o.Fail? {
        return;
      }
      o := SetStep(stepV, page);
    }

    /**
     * The range input's change handler, given what `GetFormElemValue()` read from the
     * input: a text `Double.TryParse` accepts becomes the new value, anything else
     * (null included) is a JSVException; on success the listener closure is told to
     * prevent the default action and stop propagation.
     */
    method SliderChanged(valStr: Option<string>, page: Page) returns (r: Result<int>)
      requires page.Valid()
      modifies this`value, valueDisplay`text, page.Repr()
      ensures page.Valid() && page.rt.collected == old(page.rt.collected) && fresh(page.Repr() - old(page.Repr()))
      ensures (valStr.None? || parseDouble(valStr.value).None?) ==>
        r == Err(JsvError) && value == old(value) && valueDisplay.text == old(valueDisplay.text) && page.rt.dom == old(page.rt.dom)
      ensures valStr.Some? && parseDouble(valStr.value).Some? ==> value == parseDouble(valStr.value)
      ensures r.Ok? ==> valStr.Some? && ElementJs.DecodeBehaviour(r.value) == ElementJs.Behaviour(true, true)
      ensures r.Ok? ==> valueDisplay.text == Some(ValueText(parseDouble(valStr.value), formatDouble))
    {
      if valStr.None? || parseDouble(valStr.value).None? {
        return Err(JsvError);
      }
      var o := SetValue(parseDouble(valStr.value), page);
      if o.Fail? {
        return Err(o.error);
      }
      ElementJs.DecodeEncode(ElementJs.Behaviour(true, true));
      r := Ok(ElementJs.EncodeBehaviour(ElementJs.Behaviour(true, true)));
    }

    /**
     * The reset button's click handler: sets the value back to the minimum, and tells
     * the listener closure to prevent the default action and stop propagation.
     */
    method ResetClicked(page: Page) returns (r: Result<int>)
      requires page.Valid()
      modifies this`value, valueDisplay`text, page.Repr()
      ensures page.Valid() && page.rt.collected == old(page.rt.collected) && fresh(page.Repr() - old(page.Repr()))
      ensures value == Some(minValue)
      ensures r.Ok? ==> ElementJs.DecodeBehaviour(r.value) == ElementJs.Behaviour(true, true)
      ensures r.Ok? ==> valueDisplay.text == Some(ValueText(Some(minValue), formatDouble))
    {
      var o := SetValue(Some(minValue), page);
      if o.Fail? {
        return Err(o.error);
      }
      ElementJs.DecodeEncode(ElementJs.Behaviour(true, true));
      r := Ok(ElementJs.EncodeBehaviour(ElementJs.Behaviour(true, true)));
    }

    /** `RenderBody`: label, range input, then the bodies of the value display and of the reset button. */
    function BodyHtml(): string {
      LabelHtml(labelId, id) + NewLine + "<input " + IdAttr(id) + " type=\"range\"/>"
        + NewLine + valueDisplay.BodyHtml() + NewLine + resetButton.BodyHtml()
    }
  
    /** The body renders the slider's own two elements and those of both sub-components. */
    lemma BodyNamesElements()
      ensures Contains(BodyHtml(), IdAttr(labelId)) && Contains(BodyHtml(), IdAttr(id))
      ensures Contains(BodyHtml(), IdAttr(valueDisplay.id)) && Contains(BodyHtml(), IdAttr(resetButton.id))
    {
      var a1 := LabelHtml(labelId, id) + NewLine + "<input ";
      var a2 := a1 + IdAttr(id);
      var a3 := a2 + " type=\"range\"/>" + NewLine;
      var a4 := a3 + valueDisplay.BodyHtml();
      var a5 := a4 + NewLine;
      assert BodyHtml() == a5 + resetButton.BodyHtml();
      LabelHtmlNames(labelId, id);
      valueDisplay.BodyNamesElements();
      resetButton.BodyNamesElements();
      ContainsExtend(LabelHtml(labelId, id), NewLine + "<input ", IdAttr(labelId));
      assert a1 == LabelHtml(labelId, id) + (NewLine + "<input ");
      ContainsExtend(a1, IdAttr(id), IdAttr(labelId));
      assert IdAttr(id)[0..|IdAttr(id)|] == IdAttr(id);
      ContainsPrepend(a1, IdAttr(id), IdAttr(id));
      assert a3 == a2 + (" type=\"range\"/>" + NewLine);
      ContainsExtend(a2, " type=\"range\"/>" + NewLine, IdAttr(labelId));
      ContainsExtend(a2, " type=\"range\"/>" + NewLine, IdAttr(id));
      ContainsExtend(a3, valueDisplay.BodyHtml(), IdAttr(labelId));
      ContainsExtend(a3, valueDisplay.BodyHtml(), IdAttr(id));
      ContainsPrepend(a3, valueDisplay.BodyHtml(), IdAttr(valueDisplay.id));
      ContainsExtend(a4, NewLine, IdAttr(labelId));
      ContainsExtend(a4, NewLine, IdAttr(id));
      ContainsExtend(a4, NewLine, IdAttr(valueDisplay.id));
      ContainsExtend(a5, resetButton.BodyHtml(), IdAttr(labelId));
      ContainsExtend(a5, resetButton.BodyHtml(), IdAttr(id));
      ContainsExtend(a5, resetButton.BodyHtml(), IdAttr(valueDisplay.id));
      ContainsPrepend(a5, resetButton.BodyHtml(), IdAttr(resetButton.id));
    }
  }

  /**
   * A `JSVComponent` as the framework sees it: one of the example widgets, or a class
   * that overrides nothing and so runs the base class's virtual members.
   */
  datatype Component =
    | TextInputC(textInput: TextInput)
    | CheckboxC(checkbox: Checkbox)
    | ButtonC(button: Button)
    | SliderC(slider: Slider)
    | TextDisplayC(textDisplay: TextDisplay)
    | BareC(bare: ComponentCore)
  {
    /** The `JSVComponent` part: renderer and metadata. */
    function Core(): ComponentCore {
      match this
      case TextInputC(w) => w.core
      case CheckboxC(w) => w.core
      case ButtonC(w) => w.core
      case SliderC(w) => w.core
      case TextDisplayC(w) => w.core
      case BareC(c) => c
    }

    function KindOf(): Kind {
      match this
      case TextInputC(_) => TextInputKind
      case CheckboxC(_) => CheckboxKind
      case ButtonC(_) => ButtonKind
      case SliderC(_) => SliderKind
      case TextDisplayC(_) => TextDisplayKind
      case BareC(_) => BareKind
    }

    /** The objects holding the component's own state (for the slider, its sub-components too). */
    function Objects(): set<object> {
      match this
      case TextInputC(w) => {w}
      case CheckboxC(w) => {w}
      case ButtonC(w) => {w}
      case SliderC(w) => {w, w.valueDisplay, w.resetButton}
      case TextDisplayC(w) => {w}
      case BareC(_) => {}
    }

    /** What `RenderBody` appends; the base class appends nothing. */
    function BodyHtml(): string {
      match this
      case TextInputC(w) => w.BodyHtml()
      case CheckboxC(w) => w.BodyHtml()
      case ButtonC(w) => w.BodyHtml()
      case SliderC(w) => w.BodyHtml()
      case TextDisplayC(w) => w.BodyHtml()
      case BareC(_) => ""
    }
  }

  /** `t` occurs in `a + s` when it occurs in `s`. */
  lemma ContainsPrepend(a: string, s: string, t: string)
    requires Contains(s, t)
    ensures Contains(a + s, t)
  {
    var i, j :| 0 <= i <= j <= |s| && s[i..j] == t;
    assert (a + s)[|a| + i..|a| + j] == t;
  }

  /**
   * The state `GetState` reports after a successful `UpdateState(dto)`: the DTO itself,
   * except that the button reports a null `IsDisabled` as false and the base class
   * always reports an empty DTO.
   */
  function StoredState(k: Kind, dto: CompDataDto): CompDataDto {
    match k
    case BareKind => BaseDto
    case ButtonKind =>
      (match dto
       case ButtonDto(l, t, d) => ButtonDto(l, t, Some(d.GetOr(false)))
       case _ => dto)
    case _ => dto
  }

  /** Feeding a component the state it reports changes nothing it would report. */
  lemma StoredStateIdempotent(k: Kind, dto: CompDataDto)
    ensures StoredState(k, StoredState(k, dto)) == StoredState(k, dto)
  {
  }

  /** The state DTOs that come back unchanged are exactly those `StoredState` leaves alone. */
  lemma StoredStateExact(k: Kind, dto: CompDataDto)
    requires k != BareKind && DtoKind(dto) == k
    ensures StoredState(k, dto) == dto <==> (k != ButtonKind || dto.isDisabled.Some?)
  {
  }

  /** `GetState()`, dispatched: the text display always throws NotImplementedException. */
  function GetState(c: Component): (r: Result<CompDataDto>)
    reads c.Objects()
    ensures c.TextDisplayC? <==> r.Err?
    ensures r.Ok? ==> DtoKind(r.value) == c.KindOf()
  {
    match c
    case TextInputC(w) => Ok(w.GetState())
    case CheckboxC(w) => Ok(w.GetState())
    case ButtonC(w) => Ok(w.GetState())
    case SliderC(w) => Ok(w.GetState())
    case TextDisplayC(w) => w.GetState()
    case BareC(_) => Ok(BaseDto)
  }

  /**
   * `UpdateState(dto)`, dispatched. A widget given a DTO of another class throws
   * ArgumentException and leaves the document alone; the base class accepts anything
   * and does nothing. After success, `GetState` reports `StoredState` of the DTO.
   */
  method UpdateState(c: Component, dto: CompDataDto, page: Page) returns (r: Result<bool>)
    requires page.Valid()
    modifies c.Objects(), page.Repr()
    ensures page.Valid() && page.rt.collected == old(page.rt.collected) && fresh(page.Repr() - old(page.Repr()))
    ensures !c.BareC? && DtoKind(dto) != c.KindOf() ==> r == Err(ArgumentError) && page.rt.dom == old(page.rt.dom)
    ensures c.BareC? ==> r == Ok(true) && unchanged(page.doc, page.cache, page.rt)
    ensures r.Ok? ==> r == Ok(true)
    ensures r.Ok? && !c.TextDisplayC? ==> GetState(c) == Ok(StoredState(c.KindOf(), dto))
  {
    match c
    case TextInputC(w) => r := w.UpdateState(dto, page);
    case CheckboxC(w) => r := w.UpdateState(dto, page);
    case ButtonC(w) => r := w.UpdateState(dto, page);
    case SliderC(w) => r := w.UpdateState(dto, page);
    case TextDisplayC(w) => r := w.UpdateState(dto, page);
    case BareC(_) => r := Ok(true);
  }

  /** `Initialize()`, dispatched: only the slider overrides it; the base class returns true. */
  method Initialize(c: Component, page: Page, pool: ElementJs.ListenerPool, changeListenerId: int, resetListenerId: int)
    returns (r: Result<bool>)
    requires page.Valid()
    modifies c.Objects(), page.Repr(), pool
    ensures page.Valid() && page.rt.collected == old(page.rt.collected) && fresh(page.Repr() - old(page.Repr()))
    ensures !c.SliderC? ==> r == Ok(true) && unchanged(page.doc, page.cache, page.rt) && pool.State() == old(pool.State())
    ensures r.Ok? ==> r == Ok(true)
  {
    if c.SliderC? {
      r := c.slider.Initialize(page, pool, changeListenerId, resetListenerId);
    } else {
      r := Ok(true);
    }
  }

  /** `RenderBody(htmlCB)`, dispatched: a widget appends its body once; the base class appends nothing. */
  method RenderBody(c: Component, htmlCB: HtmlContentBuilder)
    modifies htmlCB
    ensures htmlCB.Written() == old(htmlCB.Written()) + c.BodyHtml()
    ensures c.BareC? ==> htmlCB.parts == old(htmlCB.parts)
    ensures !c.BareC? ==> htmlCB.parts == old(htmlCB.parts) + [c.BodyHtml()]
  {
    if !c.BareC? {
      ConcatAppend(htmlCB.parts, c.BodyHtml());
      htmlCB.AppendHtml(c.BodyHtml());
    }
  }

  /** `RenderBodyToHtml()`: exactly what `RenderBody` appends to an empty builder, with no wrapper. */
  method RenderBodyToHtml(c: Component) returns (html: string)
    ensures html == c.BodyHtml()
  {
    var htmlCB := new HtmlContentBuilder();
    RenderBody(c, htmlCB);
    html := htmlCB.Written();
  }
}
