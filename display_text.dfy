/**
 * `DisplayTextResolver`: the label a key shows, resolved from an optional
 * JSON `displayText` against the active sub-mode label.
 */
module DisplayText {

  import opened Wrappers

  /**
   * A JSON value as the layout parser delivers it. `JsonNull` is the JSON
   * literal `null`, which is itself a primitive whose content is "null";
   * an absent `displayText` is `None` at the use site, not `JsonNull`.
   */
  datatype JsonElement =
    | JsonNull
    | JsonPrimitive(content: string)
    | JsonObject(fields: map<string, JsonElement>)
    | JsonArray(items: seq<JsonElement>)

  predicate IsPrimitive(e: JsonElement) { e.JsonNull? || e.JsonPrimitive? }

  /**
   * The outcome of resolving: a label, or the exception `jsonPrimitive`
   * raises when the chosen map entry is an object or an array.
   */
  datatype Resolution = Resolved(text: string) | NotPrimitive(element: JsonElement)

  /** `e.jsonPrimitive.content`. */
  function PrimitiveContent(e: JsonElement): (r: Resolution)
    ensures r.NotPrimitive? <==> !IsPrimitive(e)
    ensures r.NotPrimitive? ==> r.element == e
  {
    match e
    case JsonNull => Resolved("null")
    case JsonPrimitive(c) => Resolved(c)
    case _ => NotPrimitive(e)
  }

  /** `resolveMap`: the entry for the sub-mode, else the "" entry, else nothing (`None`). */
  function ResolveMap(m: map<string, JsonElement>, subModeLabel: string): (r: Option<Resolution>)
    ensures r.None? <==> subModeLabel !in m && "" !in m
  {
    if subModeLabel in m then Some(PrimitiveContent(m[subModeLabel]))
    else if "" in m then Some(PrimitiveContent(m[""]))
    else None
  }

  /** `DisplayTextResolver.resolve`. */
  function Resolve(displayText: Option<JsonElement>, subModeLabel: string, default: string): (r: Resolution)
    // it fails only on an object whose chosen entry (sub-mode first, then "") is not a primitive
    ensures r.NotPrimitive? ==>
      && displayText.Some? && displayText.value.JsonObject?
      && !IsPrimitive(r.element)
      && var m := displayText.value.fields;
         if subModeLabel in m then m[subModeLabel] == r.element else "" in m && m[""] == r.element
  {
    match displayText
    case None => Resolved(default)
    case Some(JsonNull) => Resolved("null")
    case Some(JsonPrimitive(c)) => Resolved(c)
    case Some(JsonObject(m)) => ResolveMap(m, subModeLabel).GetOr(Resolved(default))
    case Some(JsonArray(_)) => Resolved(default)
  }

  /** The reference fallback order: the first of `keys` present in `m`, else the default. */
  function FirstPresent(m: map<string, JsonElement>, keys: seq<string>, default: string): Resolution {
    if keys == [] then Resolved(default)
    else if keys[0] in m then PrimitiveContent(m[keys[0]])
    else FirstPresent(m, keys[1..], default)
  }

  /** Resolving an object follows the priority list [sub-mode label, ""] and then the default. */
  lemma ResolveObjectIsPriorityChain(m: map<string, JsonElement>, subModeLabel: string, default: string)
    ensures Resolve(Some(JsonObject(m)), subModeLabel, default) == FirstPresent(m, [subModeLabel, ""], default)
  {
    var keys := [subModeLabel, ""];
    assert keys[1..] == [""] && [""][1..] == [];
    if subModeLabel !in m {
      assert FirstPresent(m, keys, default) == FirstPresent(m, [""], default);
      if "" !in m {
        assert FirstPresent(m, [""], default) == FirstPresent(m, [], default);
      }
    }
  }

  /** Non-object values: absent gives the default, a primitive its content, an array the default. */
  lemma ResolveNonObject(e: Option<JsonElement>, subModeLabel: string, default: string)
    requires e.None? || !e.value.JsonObject?
    ensures e.None? ==> Resolve(e, subModeLabel, default) == Resolved(default)
    ensures e.Some? && e.value.JsonPrimitive? ==> Resolve(e, subModeLabel, default) == Resolved(e.value.content)
    ensures e.Some? && e.value.JsonArray? ==> Resolve(e, subModeLabel, default) == Resolved(default)
    ensures Resolve(e, subModeLabel, default).Resolved?
  {
  }

  /** An entry for the exact sub-mode wins over the "" entry and the default. */
  lemma SubModeEntryWins(m: map<string, JsonElement>, subModeLabel: string, s: string, default: string)
    ensures Resolve(Some(JsonObject(m[subModeLabel := JsonPrimitive(s)])), subModeLabel, default) == Resolved(s)
  {
  }

  /** Without a sub-mode entry, resolving is resolving the "" bucket. */
  lemma DefaultBucketFallback(m: map<string, JsonElement>, subModeLabel: string, default: string)
    requires subModeLabel !in m
    ensures Resolve(Some(JsonObject(m)), subModeLabel, default) == Resolve(Some(JsonObject(m)), "", default)
  {
  }

  /** Entries for other sub-modes never affect the result. */
  lemma OtherEntriesIgnored(m: map<string, JsonElement>, subModeLabel: string, k: string, v: JsonElement, default: string)
    requires k != subModeLabel && k != ""
    ensures Resolve(Some(JsonObject(m[k := v])), subModeLabel, default) == Resolve(Some(JsonObject(m)), subModeLabel, default)
  {
  }

  /** The default is reached only when neither key is present. */
  lemma DefaultOnlyWhenNoBucket(m: map<string, JsonElement>, subModeLabel: string, default: string)
    requires forall k :: k in m ==> m[k].JsonPrimitive? && m[k].content != default
    ensures Resolve(Some(JsonObject(m)), subModeLabel, default) == Resolved(default)
        <==> subModeLabel !in m && "" !in m
  {
  }

  /** The table of documented examples. */
  lemma DocumentedExamples()
    ensures Resolve(None, "en", "x") == Resolved("x")
    ensures Resolve(Some(JsonPrimitive("A")), "en", "x") == Resolved("A")
    ensures Resolve(Some(JsonObject(map["en" := JsonPrimitive("B"), "" := JsonPrimitive("C")])), "en", "x") == Resolved("B")
    ensures Resolve(Some(JsonObject(map["" := JsonPrimitive("C")])), "en", "x") == Resolved("C")
    ensures Resolve(Some(JsonObject(map["fr" := JsonPrimitive("D")])), "en", "x") == Resolved("x")
    ensures Resolve(Some(JsonObject(map["en" := JsonArray([])])), "en", "x") == NotPrimitive(JsonArray([]))
    ensures Resolve(Some(JsonNull), "en", "x") == Resolved("null")
  {
  }
}
