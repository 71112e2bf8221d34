/**
 * The per-key label computations of `updateAlphabetKeys` and
 * `updatePunctuationKeys`, as functions of one key record and of the
 * context the keyboard reads (layout rows, sub-mode label, the
 * keep-uppercase setting, the caps state).
 */
module KeyLabels {

  import opened Wrappers
  import opened Ascii
  import opened DisplayText
  import opened LayoutCache
  import Caps

  /**
   * The definition behind a text key. Only the alphabet keys (`AltText`)
   * carry a `character`; a key view is an `AltTextKeyView` exactly when its
   * definition is `AltTextDef`.
   */
  datatype KeyDef =
    | AltTextDef(character: string, displayText: Option<string>, altText: string)
    | TextDef(displayText: Option<string>)
    | OtherDef

  /** A text key view: its definition and the two labels the keyboard sets. */
  datatype TextKeyView = TextKeyView(def: KeyDef, mainText: string, altText: string)

  /** `List.flatten`: the rows concatenated, first row first. */
  function Flatten(rows: Rows): seq<KeyJson>
    decreases |rows|
  {
    if rows == [] then [] else rows[0] + Flatten(rows[1..])
  }

  /** An entry is in the flattened layout exactly when it is in one of its rows. */
  lemma {:induction false} FlattenMembership(rows: Rows, e: KeyJson)
    ensures e in Flatten(rows) <==> exists i :: 0 <= i < |rows| && e in rows[i]
    decreases |rows|
  {
    if rows != [] {
      FlattenMembership(rows[1..], e);
      assert forall i :: 1 <= i < |rows| ==> rows[i] == rows[1..][i - 1];
      if e in Flatten(rows[1..]) {
        var i :| 0 <= i < |rows[1..]| && e in rows[1..][i];
        assert e in rows[i + 1];
      }
    }
  }

  /** The position of the first entry whose `main` is `c`, or the length when there is none. */
  function FindIndexByMain(es: seq<KeyJson>, c: string): (i: nat)
    ensures i <= |es|
    ensures forall j :: 0 <= j < i ==> es[j].main != Some(c)
    ensures i < |es| ==> es[i].main == Some(c)
    decreases |es|
  {
    if es == [] then 0
    else if es[0].main == Some(c) then 0
    else 1 + FindIndexByMain(es[1..], c)
  }

  /** `find { it.main == c }`. */
  function FindByMain(es: seq<KeyJson>, c: string): (r: Option<KeyJson>)
    ensures r.Some? ==> r.value in es && r.value.main == Some(c)
    ensures r.None? ==> forall e :: e in es ==> e.main != Some(c)
  {
    var i := FindIndexByMain(es, c);
    if i < |es| then Some(es[i]) else None
  }

  datatype LabelContext = LabelContext(
    layout: Option<Rows>, subModeLabel: string, keepLettersUppercase: bool, caps: Caps.CapsState)

  /** What updating one key does: nothing, set its main label, or raise the resolver's exception. */
  datatype LabelOutcome = Unchanged | SetMain(text: string) | Throws(element: JsonElement)

  /** The display text for an alphabet key from per-input-method rows, before the case rules apply. */
  function CustomDisplayText(character: string, rows: Rows, subModeLabel: string): Resolution {
    var entry := FindByMain(Flatten(rows), character);
    if entry.Some? then Resolve(entry.value.displayText, subModeLabel, entry.value.main.GetOr(""))
    else Resolved(character)
  }

  /** The label of an alphabet key when the input method has its own rows. */
  function CustomAlphabetLabel(character: string, rows: Rows, ctx: LabelContext): LabelOutcome {
    var entry := FindByMain(Flatten(rows), character);
    var display := CustomDisplayText(character, rows, ctx.subModeLabel);
    if display.NotPrimitive? then Throws(display.element)
    else
      var str := display.text;
      SetMain(
        if str == "" then character
        else if ctx.keepLettersUppercase then
          (if entry.Some? && entry.value.main.Some? then Upper(entry.value.main.value) else Upper(str))
        else Caps.TransformAlphabet(ctx.caps, str))
  }

  /** The label of an alphabet key from its own definition. */
  function DefaultAlphabetLabel(def: KeyDef, ctx: LabelContext): string
    requires def.AltTextDef?
  {
    var original := def.displayText.GetOr(def.character);
    if |original| == 1 && IsLetter(original[0]) then
      (if ctx.keepLettersUppercase then Upper(original) else Caps.TransformAlphabet(ctx.caps, original))
    else original
  }

  /** One key of `updateAlphabetKeys`: only alphabet keys are touched. */
  function AlphabetLabel(k: TextKeyView, ctx: LabelContext): LabelOutcome {
    if !k.def.AltTextDef? then Unchanged
    else if ctx.layout.None? then SetMain(DefaultAlphabetLabel(k.def, ctx))
    else CustomAlphabetLabel(k.def.character, ctx.layout.value, ctx)
  }

  function Apply(k: TextKeyView, o: LabelOutcome): TextKeyView {
    if o.SetMain? then k.(mainText := o.text) else k
  }

  function RelabelKey(k: TextKeyView, ctx: LabelContext): TextKeyView {
    Apply(k, AlphabetLabel(k, ctx))
  }

  /** The position of the first key whose update raises, or the number of keys. */
  function FirstThrow(ks: seq<TextKeyView>, ctx: LabelContext): (i: nat)
    ensures i <= |ks|
    ensures forall j :: 0 <= j < i ==> !AlphabetLabel(ks[j], ctx).Throws?
    ensures i < |ks| ==> AlphabetLabel(ks[i], ctx).Throws?
    decreases |ks|
  {
    if ks == [] then 0
    else if AlphabetLabel(ks[0], ctx).Throws? then 0
    else 1 + FirstThrow(ks[1..], ctx)
  }

  /** The keys after `updateAlphabetKeys`: relabelled in order up to the first one that raises. */
  function RelabelAlphabet(ks: seq<TextKeyView>, ctx: LabelContext): (r: seq<TextKeyView>)
    ensures |r| == |ks|
  {
    var stop := FirstThrow(ks, ctx);
    seq(|ks|, i requires 0 <= i < |ks| => if i < stop then RelabelKey(ks[i], ctx) else ks[i])
  }

  /** `updateAlphabetKeys` for an optional context (`None`: no input method yet, nothing happens). */
  function RefreshAlphabet(ks: seq<TextKeyView>, ctx: Option<LabelContext>): seq<TextKeyView> {
    if ctx.None? then ks else RelabelAlphabet(ks, ctx.value)
  }

  predicate AlphabetSucceeds(ks: seq<TextKeyView>, ctx: Option<LabelContext>) {
    ctx.None? || FirstThrow(ks, ctx.value) == |ks|
  }

  /** `updatePunctuationKeys` on one key. */
  function PunctuationLabel(k: TextKeyView, mapping: map<string, string>): TextKeyView {
    match k.def
    case AltTextDef(_, _, alt) => k.(altText := Caps.TransformPunctuation(mapping, alt))
    case TextDef(Some(str)) =>
      if |str| > 0 && (IsLetter(str[0]) || IsWhitespace(str[0])) then k
      else k.(mainText := Caps.TransformPunctuation(mapping, str))
    case _ => k
  }

  // ---- properties of the alphabet labels ----

  /** A label is computed from the key's definition only, so updating twice is updating once. */
  lemma RelabelKeyIdempotent(k: TextKeyView, ctx: LabelContext)
    ensures RelabelKey(k, ctx).def == k.def && RelabelKey(k, ctx).altText == k.altText
    ensures AlphabetLabel(RelabelKey(k, ctx), ctx) == AlphabetLabel(k, ctx)
    ensures RelabelKey(RelabelKey(k, ctx), ctx) == RelabelKey(k, ctx)
  {
  }

  /** Whether an update raises does not depend on the caps state or the setting, only on definitions, layout and sub-mode. */
  lemma ThrowsIgnoresCase(k: TextKeyView, ctx: LabelContext, caps: Caps.CapsState, keep: bool)
    ensures AlphabetLabel(k, ctx).Throws? == AlphabetLabel(k, ctx.(caps := caps, keepLettersUppercase := keep)).Throws?
  {
  }

  lemma {:induction false} FirstThrowIgnoresCase(ks: seq<TextKeyView>, ctx: LabelContext, caps: Caps.CapsState)
    ensures FirstThrow(ks, ctx) == FirstThrow(ks, ctx.(caps := caps))
    decreases |ks|
  {
    if ks != [] {
      ThrowsIgnoresCase(ks[0], ctx, caps, ctx.keepLettersUppercase);
      FirstThrowIgnoresCase(ks[1..], ctx, caps);
    }
  }

  lemma {:induction false} FirstThrowIgnoresLabels(ks: seq<TextKeyView>, ks': seq<TextKeyView>, ctx: LabelContext)
    requires |ks| == |ks'| && forall i :: 0 <= i < |ks| ==> ks[i].def == ks'[i].def
    ensures FirstThrow(ks, ctx) == FirstThrow(ks', ctx)
    decreases |ks|
  {
    if ks != [] {
      assert AlphabetLabel(ks[0], ctx).Throws? == AlphabetLabel(ks'[0], ctx).Throws?;
      FirstThrowIgnoresLabels(ks[1..], ks'[1..], ctx);
    }
  }

  /**
   * A complete update followed by another with a different caps state is
   * the second update alone: the labels an update sets never depend on
   * the labels it overwrites.
   */
  lemma RelabelTwice(ks: seq<TextKeyView>, ctx: LabelContext, caps: Caps.CapsState)
    requires FirstThrow(ks, ctx) == |ks|
    ensures FirstThrow(RelabelAlphabet(ks, ctx), ctx.(caps := caps)) == |ks|
    ensures RelabelAlphabet(RelabelAlphabet(ks, ctx), ctx.(caps := caps)) == RelabelAlphabet(ks, ctx.(caps := caps))
  {
    var ctx2 := ctx.(caps := caps);
    var mid := RelabelAlphabet(ks, ctx);
    FirstThrowIgnoresLabels(ks, mid, ctx2);
    FirstThrowIgnoresCase(ks, ctx, caps);
    assert FirstThrow(ks, ctx2) == |ks|;
    forall i | 0 <= i < |ks| ensures RelabelAlphabet(mid, ctx2)[i] == RelabelAlphabet(ks, ctx2)[i] {
      assert mid[i] == RelabelKey(ks[i], ctx);
    }
  }

  /** Keys other than alphabet keys, and every key's definition and alternative label, are left alone. */
  lemma RelabelFrame(ks: seq<TextKeyView>, ctx: LabelContext, i: int)
    requires 0 <= i < |ks|
    ensures RelabelAlphabet(ks, ctx)[i].def == ks[i].def
    ensures RelabelAlphabet(ks, ctx)[i].altText == ks[i].altText
    ensures !ks[i].def.AltTextDef? ==> RelabelAlphabet(ks, ctx)[i] == ks[i]
  {
  }

  /**
   * Without rows of its own, an input method only gets the key definitions'
   * display texts; nothing can raise, and a single letter changes case only.
   */
  lemma DefaultLabelCases(k: TextKeyView, ctx: LabelContext)
    requires k.def.AltTextDef? && ctx.layout.None?
    ensures var original := k.def.displayText.GetOr(k.def.character);
      && AlphabetLabel(k, ctx) == SetMain(DefaultAlphabetLabel(k.def, ctx))
      && (|original| != 1 || !IsLetter(original[0]) ==> DefaultAlphabetLabel(k.def, ctx) == original)
      && (|original| == 1 && IsLetter(original[0]) ==>
            |DefaultAlphabetLabel(k.def, ctx)| == 1 && Lower(DefaultAlphabetLabel(k.def, ctx)) == Lower(original)
            && (ctx.keepLettersUppercase ==> IsUpper(DefaultAlphabetLabel(k.def, ctx)[0]))
            && (!ctx.keepLettersUppercase ==>
                  DefaultAlphabetLabel(k.def, ctx) == Caps.TransformAlphabet(ctx.caps, original)
                  && (ctx.caps == Caps.CapsState.None <==> IsLower(DefaultAlphabetLabel(k.def, ctx)[0]))))
  {
    var original := k.def.displayText.GetOr(k.def.character);
    if |original| == 1 && IsLetter(original[0]) {
      SingleLetterCase(original);
      LowerOfUpper(original);
      LowerIdempotent(original);
    }
  }

  lemma NoThrowWithoutLayout(ks: seq<TextKeyView>, ctx: LabelContext)
    requires ctx.layout.None?
    ensures FirstThrow(ks, ctx) == |ks|
  {
  }

  /** With rows of its own, the display text comes from the first flattened entry whose `main` is the key's character. */
  lemma CustomDisplayTextSource(character: string, rows: Rows, subModeLabel: string)
    ensures var es := Flatten(rows); var i := FindIndexByMain(es, character);
      && (i == |es| ==> CustomDisplayText(character, rows, subModeLabel) == Resolved(character))
      && (i < |es| ==> CustomDisplayText(character, rows, subModeLabel) == Resolve(es[i].displayText, subModeLabel, character))
  {
  }

  /**
   * With its own rows and a non-empty display text, a key keeps its
   * character upper-cased when keep-uppercase is set (the display text is
   * then ignored) and otherwise shows the display text in the caps state's
   * case; an empty display text falls back to the character as it is.
   */
  lemma CustomLabelCases(character: string, rows: Rows, ctx: LabelContext)
    requires CustomDisplayText(character, rows, ctx.subModeLabel).Resolved?
    ensures var str := CustomDisplayText(character, rows, ctx.subModeLabel).text;
      && CustomAlphabetLabel(character, rows, ctx) == SetMain(
        if str == "" then character
        else if ctx.keepLettersUppercase then Upper(character)
        else Caps.TransformAlphabet(ctx.caps, str))
  {
  }

  /** With rows of its own, an alphabet key's update is the label its rows give it; other keys are never touched. */
  lemma CustomLayoutLabel(k: TextKeyView, ctx: LabelContext)
    ensures !k.def.AltTextDef? ==> AlphabetLabel(k, ctx) == Unchanged && RelabelKey(k, ctx) == k
    ensures k.def.AltTextDef? && ctx.layout.Some? ==>
      AlphabetLabel(k, ctx) == CustomAlphabetLabel(k.def.character, ctx.layout.value, ctx)
  {
  }

  /** A key update raises exactly when its display text resolves to a non-primitive, and it raises that element. */
  lemma CustomLabelRaises(character: string, rows: Rows, ctx: LabelContext)
    ensures CustomAlphabetLabel(character, rows, ctx).Throws?
            <==> CustomDisplayText(character, rows, ctx.subModeLabel).NotPrimitive?
    ensures CustomDisplayText(character, rows, ctx.subModeLabel).NotPrimitive? ==>
      CustomAlphabetLabel(character, rows, ctx) == Throws(CustomDisplayText(character, rows, ctx.subModeLabel).element)
  {
  }

  /**
   * A key whose first matching entry maps the current sub-mode to an object
   * or an array raises, so when no earlier key raises, the relabel stops at
   * that key: the earlier keys are relabelled, it and all later keys keep
   * their labels.
   */
  lemma {:induction false} RelabelStopsAtRaisingKey(ks: seq<TextKeyView>, i: nat, ctx: LabelContext, m: map<string, JsonElement>)
    requires i < |ks| && ks[i].def.AltTextDef? && ctx.layout.Some?
    requires forall j :: 0 <= j < i ==> !AlphabetLabel(ks[j], ctx).Throws?
    requires var e := FindByMain(Flatten(ctx.layout.value), ks[i].def.character);
      e.Some? && e.value.displayText == Some(JsonObject(m))
    requires ctx.subModeLabel in m && !IsPrimitive(m[ctx.subModeLabel])
    ensures AlphabetLabel(ks[i], ctx) == Throws(m[ctx.subModeLabel])
    ensures FirstThrow(ks, ctx) == i
    ensures var r := RelabelAlphabet(ks, ctx);
      r[..i] == seq(i, j requires 0 <= j < i => RelabelKey(ks[j], ctx)) && r[i..] == ks[i..]
  {
    var rows := ctx.layout.value;
    var e := FindByMain(Flatten(rows), ks[i].def.character);
    assert Resolve(e.value.displayText, ctx.subModeLabel, e.value.main.GetOr("")) == NotPrimitive(m[ctx.subModeLabel]);
    CustomLabelRaises(ks[i].def.character, rows, ctx);
  }

  /** The documented failing layout: an array under the sub-mode stops the relabel at the first key. */
  lemma DocumentedRaise()
    ensures var rows := [[KeyJson("", Some("a"), None, Some(JsonObject(map["en" := JsonArray([])])), None, None, None)]];
      var ctx := LabelContext(Some(rows), "en", false, Caps.CapsState.None);
      var ks := [TextKeyView(AltTextDef("a", None, ""), "a", ""), TextKeyView(AltTextDef("b", None, ""), "b", "")];
      FirstThrow(ks, ctx) == 0 && RelabelAlphabet(ks, ctx) == ks && !AlphabetSucceeds(ks, Some(ctx))
  {
    var rows := [[KeyJson("", Some("a"), None, Some(JsonObject(map["en" := JsonArray([])])), None, None, None)]];
    var ctx := LabelContext(Some(rows), "en", false, Caps.CapsState.None);
    var ks := [TextKeyView(AltTextDef("a", None, ""), "a", ""), TextKeyView(AltTextDef("b", None, ""), "b", "")];
    assert Flatten(rows) == rows[0];
    RelabelStopsAtRaisingKey(ks, 0, ctx, map["en" := JsonArray([])]);
    assert RelabelAlphabet(ks, ctx)[0..] == ks[0..];
  }

  /** A key with a non-empty character never gets an empty label from its own rows. */
  lemma CustomLabelNonEmpty(character: string, rows: Rows, ctx: LabelContext)
    requires character != ""
    requires CustomDisplayText(character, rows, ctx.subModeLabel).Resolved?
    ensures CustomAlphabetLabel(character, rows, ctx).SetMain?
    ensures CustomAlphabetLabel(character, rows, ctx).text != ""
  {
    CustomLabelCases(character, rows, ctx);
    var str := CustomDisplayText(character, rows, ctx.subModeLabel).text;
    UpperAt(character);
    UpperAt(str);
    LowerAt(str);
  }

  /** Display texts that are absent, primitive or sub-mode maps of primitives never raise. */
  predicate PrimitiveDisplayTexts(rows: Rows) {
    forall e :: e in Flatten(rows) && e.displayText.Some? && e.displayText.value.JsonObject? ==>
      forall k :: k in e.displayText.value.fields ==> IsPrimitive(e.displayText.value.fields[k])
  }

  lemma NoThrowWithPrimitiveDisplayTexts(ks: seq<TextKeyView>, ctx: LabelContext)
    requires ctx.layout.Some? && PrimitiveDisplayTexts(ctx.layout.value)
    ensures FirstThrow(ks, ctx) == |ks|
  {
  }

  // ---- properties of the punctuation labels ----

  /**
   * Punctuation refresh: an alphabet key only changes its alternative label,
   * a plain text key only its main label, and a text key starting with a
   * letter or whitespace is untouched; both labels come from the definition,
   * so refreshing twice equals refreshing once.
   */
  lemma PunctuationFrame(k: TextKeyView, mapping: map<string, string>)
    ensures PunctuationLabel(k, mapping).def == k.def
    ensures k.def.AltTextDef? ==>
      PunctuationLabel(k, mapping) == k.(altText := Caps.TransformPunctuation(mapping, k.def.altText))
    ensures !k.def.AltTextDef? ==> PunctuationLabel(k, mapping).altText == k.altText
    ensures k.def.OtherDef? || k.def == TextDef(None) ==> PunctuationLabel(k, mapping) == k
    ensures k.def.TextDef? && k.def.displayText.Some? && |k.def.displayText.value| > 0
            && (IsLetter(k.def.displayText.value[0]) || IsWhitespace(k.def.displayText.value[0]))
            ==> PunctuationLabel(k, mapping) == k
    ensures PunctuationLabel(PunctuationLabel(k, mapping), mapping) == PunctuationLabel(k, mapping)
  {
  }

  /**
   * A plain text key whose text does not start with a letter or whitespace
   * shows its text through the punctuation mapping: the mapped symbol, or
   * the text itself when it has no mapping.
   */
  lemma PunctuationTextKey(k: TextKeyView, mapping: map<string, string>, str: string)
    requires k.def == TextDef(Some(str))
    requires !(|str| > 0 && (IsLetter(str[0]) || IsWhitespace(str[0])))
    ensures PunctuationLabel(k, mapping) == k.(mainText := if str in mapping then mapping[str] else str)
  {
  }

  /** Symbols outside the mapping are reset to their definition's text, letters and whitespace excepted. */
  lemma PunctuationUnmapped(k: TextKeyView, mapping: map<string, string>, str: string)
    requires k.def == TextDef(Some(str)) && str !in mapping
    ensures |str| > 0 && (IsLetter(str[0]) || IsWhitespace(str[0])) ==> PunctuationLabel(k, mapping) == k
    ensures !(|str| > 0 && (IsLetter(str[0]) || IsWhitespace(str[0]))) ==>
      PunctuationLabel(k, mapping) == k.(mainText := str)
  {
  }
}
