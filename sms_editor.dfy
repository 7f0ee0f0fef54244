/**
 * The admin SMS template editor: the content it edits, its character and
 * SMS counters, inserting a variable at the selection and the payload it
 * saves, and how the back end renders and stores what it saves.
 */
module SmsEditor {
  import opened Wrappers
  import opened Text
  import opened Seqs
  import SmsService
  import OrderSerializers

  /** The fields of the template the editor reads. */
  datatype Template = Template(id: nat, messageTemplate: string)

  /** Characters per SMS segment the counter assumes (a Persian, UCS-2 segment). */
  const SegmentLength: nat := 70

  /** The variables the editor's buttons insert. */
  const EditorVariables: seq<string> := [
    "{{customer_name}}", "{{order_id}}", "{{order_total}}", "{{tracking_number}}",
    "{{courier_name}}", "{{preparation_time}}", "{{store_name}}", "{{store_phone}}"]

  /** The effect on the edited content: a new template replaces it, no template keeps it. */
  function ContentOnTemplateChange(template: Option<Template>, content: string): (r: string)
    ensures template.Some? ==> r == template.value.messageTemplate
    ensures template.None? ==> r == content
  {
    if template.Some? then template.value.messageTemplate else content
  }

  /** `Math.ceil(charCount / 70)`: how many messages the text takes. */
  function SmsCount(charCount: nat): nat
  {
    CeilDiv(charCount, SegmentLength)
  }

  /** `text.substring(0, start) + piece + text.substring(end)`. */
  function Splice(text: string, start: nat, end: nat, piece: string): (r: string)
    requires start <= end <= |text|
    ensures |r| == |text| - (end - start) + |piece|
    ensures r[..start] == text[..start]
    ensures r[start..start + |piece|] == piece
    ensures r[start + |piece|..] == text[end..]
  {
    text[..start] + piece + text[end..]
  }

  /** The text area's value and selection; the browser keeps the selection inside the text. */
  datatype TextArea = TextArea(value: string, selectionStart: nat, selectionEnd: nat)

  predicate SelectionValid(area: TextArea) { area.selectionStart <= area.selectionEnd <= |area.value| }

  datatype Insertion = Insertion(content: string, caret: nat)

  /**
   * insertVariable: nothing happens without a text area; otherwise the
   * selection is replaced by the variable and the caret lands after it.
   */
  function InsertVariable(area: Option<TextArea>, variable: string): (r: Option<Insertion>)
    requires area.Some? ==> SelectionValid(area.value)
    ensures r.None? <==> area.None?
    ensures r.Some? ==> r.value.caret == area.value.selectionStart + |variable|
                        && OccursAt(r.value.content, variable, area.value.selectionStart)
  {
    if area.None? then None
    else
      var a := area.value;
      var content := Splice(a.value, a.selectionStart, a.selectionEnd, variable);
      Some(Insertion(content, a.selectionStart + |variable|))
  }

  /**
   * Insertion only replaces the selection: putting the selected text back
   * over the inserted variable restores the original text.
   */
  lemma InsertThenRestore(text: string, start: nat, end: nat, variable: string)
    requires start <= end <= |text|
    ensures var inserted := Splice(text, start, end, variable);
      Splice(inserted, start, start + |variable|, text[start..end]) == text
  {
    var inserted := Splice(text, start, end, variable);
    var back := Splice(inserted, start, start + |variable|, text[start..end]);
    assert back == text[..start] + text[start..end] + text[end..];
    assert text[..start] + text[start..end] + text[end..] == text;
  }

  /** handleSave: with a template open it sends only the id and the edited content. */
  function SavePayload(template: Option<Template>, content: string): (r: Option<Template>)
    ensures r.Some? <==> template.Some?
    ensures r.Some? ==> r.value.id == template.value.id && r.value.messageTemplate == content
  {
    if template.Some? then Some(Template(template.value.id, content)) else None
  }

  /** The back end receives the payload as a partial update that names the message alone. */
  function PatchOf(payload: Template): OrderSerializers.TemplatePatch
  {
    OrderSerializers.TemplatePatch(None, Some(payload.messageTemplate), None)
  }

  /**
   * Saving from the editor: content that is all white space is refused with
   * the error keyed `message_template`; other content is stored stripped and
   * nothing else in the template changes. Saving an unedited template whose
   * message is already stripped and non-empty stores it unchanged.
   */
  lemma SaveChangesOnlyMessage(stored: SmsService.SmsTemplate, id: nat, content: string)
    ensures var v := OrderSerializers.ValidateTemplatePatch(PatchOf(Template(id, content)));
      (v.Accepted? <==> !AllSpace(Python, content))
      && (v.Rejected? ==> v.keys == ["message_template"])
      && (v.Accepted? ==>
            var after := OrderSerializers.ApplyTemplatePatch(stored, v.value);
            after.messageTemplate == Trim(Python, content) && after.messageTemplate != []
            && after.isActive == stored.isActive && after.description == stored.description)
    ensures stored.messageTemplate != [] && Trim(Python, stored.messageTemplate) == stored.messageTemplate ==>
      var shown := Template(id, stored.messageTemplate);
      var v := OrderSerializers.ValidateTemplatePatch(
        PatchOf(SavePayload(Some(shown), ContentOnTemplateChange(Some(shown), "")).value));
      v.Accepted? && OrderSerializers.ApplyTemplatePatch(stored, v.value) == stored
  {
    TrimEmptyIff(Python, content);
    TrimEmptyIff(Python, stored.messageTemplate);
  }

  /** Text in which "{{" starts only at position 0. */
  predicate LeadingBracesOnly(s: string)
  {
    forall i :: 1 <= i < |s| - 1 ==> !(s[i] == '{' && s[i + 1] == '{')
  }

  /** A placeholder that does not start `s` occurs nowhere in it when `s` has braces only at its start. */
  lemma AbsentPlaceholder(s: string, p: string)
    requires LeadingBracesOnly(s)
    requires |p| >= 2 && p[0] == '{' && p[1] == '{'
    requires |p| <= |s| ==> s[..|p|] != p
    ensures forall i :: 0 <= i <= |s| - |p| ==> !OccursAt(s, p, i)
  {
    forall i | 0 <= i <= |s| - |p|
      ensures !OccursAt(s, p, i)
    {
      if i > 0 {
        assert !(s[i] == '{' && s[i + 1] == '{');
        assert s[i..i + |p|][0] == s[i] && s[i..i + |p|][1] == s[i + 1];
      }
    }
  }

  /** Replacing placeholders none of which occur in the text leaves it as it is. */
  lemma {:induction false} ReplaceEachAbsent(message: string, mapping: seq<(string, string)>)
    requires forall k :: 0 <= k < |mapping| ==> |mapping[k].0| > 0
    requires forall k, i :: 0 <= k < |mapping| && 0 <= i <= |message| - |mapping[k].0| ==> !OccursAt(message, mapping[k].0, i)
    ensures SmsService.ReplaceEach(message, mapping) == message
    decreases |mapping|
  {
    if mapping != [] {
      ReplaceAbsent(message, mapping[0].0, mapping[0].1);
      assert forall k :: 0 <= k < |mapping[1..]| ==> mapping[1..][k] == mapping[k + 1];
      ReplaceEachAbsent(message, mapping[1..]);
    }
  }

  /** `v` differs from each placeholder the sender fills, at the first position where they can differ. */
  lemma NotAFilledPlaceholder(v: string, order: SmsService.OrderFacts, config: SmsService.SmsConfig)
    requires v in {"{{courier_name}}", "{{preparation_time}}", "{{store_phone}}"}
    ensures forall k :: 0 <= k < 5 ==> var p := SmsService.Mapping(order, config)[k].0;
      |p| >= 2 && p[0] == '{' && p[1] == '{' && (|p| <= |v| ==> v[..|p|] != p)
  {
    var m := SmsService.Mapping(order, config);
    forall k | 0 <= k < 5
      ensures var p := m[k].0; |p| >= 2 && p[0] == '{' && p[1] == '{' && (|p| <= |v| ==> v[..|p|] != p)
    {
      var p := m[k].0;
      if |p| <= |v| {
        if v == "{{store_phone}}" && p == "{{store_name}}" {
          assert v[..|p|][8] != p[8];
        } else {
          assert v[..|p|][2] != p[2];
        }
      }
    }
  }

  /** The three unfilled variables are offered by the editor and have braces only at their start. */
  lemma UnfilledVariableShape(v: string)
    requires v in {"{{courier_name}}", "{{preparation_time}}", "{{store_phone}}"}
    ensures v in EditorVariables && LeadingBracesOnly(v)
  {
    if v == "{{courier_name}}" {
      assert EditorVariables[4] == v;
    } else if v == "{{preparation_time}}" {
      assert EditorVariables[5] == v;
    } else {
      assert EditorVariables[7] == v;
    }
  }

  /**
   * Three of the editor's variables are never filled in: a template made of
   * {{courier_name}}, {{preparation_time}} or {{store_phone}} goes out with
   * the placeholder text itself.
   */
  lemma UnfilledVariable(v: string, order: SmsService.OrderFacts, config: SmsService.SmsConfig)
    requires v in {"{{courier_name}}", "{{preparation_time}}", "{{store_phone}}"}
    ensures v in EditorVariables
    ensures SmsService.FormatSmsMessage(v, order, config) == v
  {
    var m := SmsService.Mapping(order, config);
    UnfilledVariableShape(v);
    NotAFilledPlaceholder(v, order, config);
    forall k | 0 <= k < |m|
      ensures forall i :: 0 <= i <= |v| - |m[k].0| ==> !OccursAt(v, m[k].0, i)
    {
      AbsentPlaceholder(v, m[k].0);
    }
    ReplaceEachAbsent(v, m);
  }
}
