/** Overlaying runtime policies along a profile's lineage. Go's nil and empty
    slices and maps are one value here: no result distinguishes them. */
module RuntimePlan {
  import opened Numbers
  import opened Wrappers
  import opened Text
  import opened RuntimeMiddlewares
  import opened RuntimeTools

  datatype ProfileRuntime = ProfileRuntime(
    systemPrompt: string, middlewares: seq<MiddlewareUse>, tools: seq<string>)

  // ----- Merging two runtimes -----

  /** MergeProfileRuntime. */
  function Merge(base: Option<ProfileRuntime>, overlay: Option<ProfileRuntime>, mode: ToolMergeMode)
    : Option<ProfileRuntime>
  {
    if base.None? then overlay
    else if overlay.None? then base
    else
      var b, o := base.value, overlay.value;
      Some(ProfileRuntime(
             if TrimSpace(o.systemPrompt) != "" then TrimSpace(o.systemPrompt) else b.systemPrompt,
             Overlay([], b.middlewares + o.middlewares),
             MergedTools(b.tools, o.tools, if mode.Unset? then Union else mode)))
  }

  method MergeProfileRuntime(base: Option<ProfileRuntime>, overlay: Option<ProfileRuntime>, mode: ToolMergeMode)
    returns (merged: Option<ProfileRuntime>)
    ensures merged == Merge(base, overlay, mode)
  {
    if base.None? {
      return overlay;
    }
    if overlay.None? {
      return base;
    }
    var prompt := base.value.systemPrompt;
    var overlaid := TrimSpace(overlay.value.systemPrompt);
    if overlaid != "" {
      prompt := overlaid;
    }
    var middlewares := MergeRuntimeMiddlewares(base.value.middlewares, overlay.value.middlewares);
    var tools := MergeRuntimeTools(base.value.tools, overlay.value.tools, if mode.Unset? then Union else mode);
    return Some(ProfileRuntime(prompt, middlewares, tools));
  }

  /** Merging is associative in every mode; nil is its two-sided identity. */
  lemma MergeAssociative(a: Option<ProfileRuntime>, b: Option<ProfileRuntime>, c: Option<ProfileRuntime>,
                         mode: ToolMergeMode)
    ensures Merge(Merge(a, b, mode), c, mode) == Merge(a, Merge(b, c, mode), mode)
    ensures Merge(None, a, mode) == a == Merge(a, None, mode)
  {
    if a.Some? && b.Some? && c.Some? {
      var m := if mode.Unset? then Union else mode;
      MergedToolsAssociative(a.value.tools, b.value.tools, c.value.tools, m);
      MergedMiddlewaresAssociative(a.value.middlewares, b.value.middlewares, c.value.middlewares);
      TrimIdempotent(b.value.systemPrompt);
      TrimIdempotent(c.value.systemPrompt);
    }
  }

  // ----- The lineage fold -----

  type Lineage = seq<Option<ProfileRuntime>>

  /** The loop of ResolveRuntimePlan over the runtimes of a lineage. */
  function Fold(start: Option<ProfileRuntime>, lineage: Lineage, mode: ToolMergeMode): Option<ProfileRuntime>
    decreases |lineage|
  {
    if lineage == [] then start else Fold(Merge(start, lineage[0], mode), lineage[1..], mode)
  }

  /** Any way of bracketing a lineage. */
  datatype Grouping = One(runtime: Option<ProfileRuntime>) | Two(left: Grouping, right: Grouping) {
    function Leaves(): Lineage {
      match this
      case One(r) => [r]
      case Two(l, r) => l.Leaves() + r.Leaves()
    }

    function Value(mode: ToolMergeMode): Option<ProfileRuntime> {
      match this
      case One(r) => r
      case Two(l, r) => Merge(l.Value(mode), r.Value(mode), mode)
    }
  }

  lemma {:induction false} FoldFrom(a: Option<ProfileRuntime>, b: Option<ProfileRuntime>, lineage: Lineage,
                                    mode: ToolMergeMode)
    ensures Fold(Merge(a, b, mode), lineage, mode) == Merge(a, Fold(b, lineage, mode), mode)
    decreases |lineage|
  {
    if lineage != [] {
      MergeAssociative(a, b, lineage[0], mode);
      FoldFrom(a, Merge(b, lineage[0], mode), lineage[1..], mode);
    }
  }

  lemma {:induction false} FoldConcat(start: Option<ProfileRuntime>, a: Lineage, b: Lineage, mode: ToolMergeMode)
    ensures Fold(start, a + b, mode) == Fold(Fold(start, a, mode), b, mode)
    decreases |a|
  {
    if a == [] {
      assert a + b == b;
    } else {
      assert (a + b)[1..] == a[1..] + b;
      FoldConcat(Merge(start, a[0], mode), a[1..], b, mode);
    }
  }

  /** However a lineage is bracketed, it merges to the same runtime. */
  lemma {:induction false} GroupingDoesNotMatter(g: Grouping, mode: ToolMergeMode)
    ensures g.Value(mode) == Fold(None, g.Leaves(), mode)
  {
    match g
    case One(r) =>
    case Two(l, r) =>
      GroupingDoesNotMatter(l, mode);
      GroupingDoesNotMatter(r, mode);
      FoldConcat(None, l.Leaves(), r.Leaves(), mode);
      MergeAssociative(l.Value(mode), None, None, mode);
      FoldFrom(l.Value(mode), None, r.Leaves(), mode);
  }

  // ----- Resolving a plan -----

  datatype Entry = Entry(registrySlug: string, profileSlug: string)

  /** The runtime of a profile, or the error of looking it up or decoding it. */
  type Registry = Entry -> Result<Option<ProfileRuntime>>

  /** Inference settings, of another library. */
  type Inference = string

  /** Go's numeric types that a profile version may have; Other is anything
      else. */
  datatype MetaValue = Unsigned(n: nat) | Signed(i: int) | Float(r: real) | Other(text: string)

  type Metadata = map<string, MetaValue>

  datatype ResolvedProfile = ResolvedProfile(
    own: Entry, lineage: seq<Entry>, inference: Option<Inference>, metadata: Metadata)

  datatype Plan = Plan(
    profile: Option<ResolvedProfile>, version: nat, inference: Option<Inference>,
    runtime: Option<ProfileRuntime>, metadata: Metadata)

  function EntriesOf(resolved: ResolvedProfile): seq<Entry> {
    if resolved.lineage == [] then [resolved.own] else resolved.lineage
  }

  /** ProfileVersionFromResolvedMetadata. */
  function ProfileVersion(metadata: Metadata): nat {
    if "profile.version" !in metadata then 0
    else match metadata["profile.version"]
      case Unsigned(n) => n
      case Signed(i) => if i >= 0 then i else 0
      case Float(r) => if r >= 0.0 then r.Floor else 0
      case Other(_) => 0
  }

  /** A profile without a lineage is its own lineage; its version is a whole
      number that is not negative, 0 for want of one, a float rounded down. */
  lemma ProfileMeaning(resolved: ResolvedProfile)
    ensures EntriesOf(resolved) == if |resolved.lineage| > 0 then resolved.lineage else [resolved.own]
    ensures var version := ProfileVersion(resolved.metadata);
      && ("profile.version" !in resolved.metadata ==> version == 0)
      && ("profile.version" in resolved.metadata ==>
            var v := resolved.metadata["profile.version"];
            && (v.Unsigned? ==> version == v.n)
            && (v.Signed? ==> version == Max(v.i, 0))
            && (v.Float? ==> if v.r < 0.0 then version == 0 else version as real <= v.r < version as real + 1.0)
            && (v.Other? ==> version == 0))
  {
  }

  function Runtimes(registry: Registry, entries: seq<Entry>): Lineage {
    if entries == [] then []
    else
      var found := registry(entries[0]);
      [if found.Ok? then found.value else None] + Runtimes(registry, entries[1..])
  }

  lemma {:induction false} RuntimesAppend(registry: Registry, entries: seq<Entry>, entry: Entry)
    requires registry(entry).Ok?
    ensures Runtimes(registry, entries + [entry]) == Runtimes(registry, entries) + [registry(entry).value]
  {
    if entries != [] {
      assert (entries + [entry])[1..] == entries[1..] + [entry];
      RuntimesAppend(registry, entries[1..], entry);
    } else {
      assert entries + [entry] == [entry];
    }
  }

  /** The entry is the first that the registry refuses. */
  ghost predicate FirstRefused(registry: Registry, entries: seq<Entry>, i: nat) {
    i < |entries| && registry(entries[i]).Err? && forall j | 0 <= j < i :: registry(entries[j]).Ok?
  }

  ghost predicate AllFound(registry: Registry, entries: seq<Entry>) {
    forall i | 0 <= i < |entries| :: registry(entries[i]).Ok?
  }

  /** The loop over the lineage. */
  method OverlayLineage(registry: Registry, entries: seq<Entry>, base: Option<ProfileRuntime>, mode: ToolMergeMode)
    returns (r: Result<Option<ProfileRuntime>>)
    ensures r.Ok? ==> AllFound(registry, entries) && r.value == Fold(base, Runtimes(registry, entries), mode)
    ensures r.Err? ==> exists i: nat :: FirstRefused(registry, entries, i) && r == registry(entries[i])
  {
    var runtime := base;
    for i := 0 to |entries|
      invariant forall j | 0 <= j < i :: registry(entries[j]).Ok?
      invariant runtime == Fold(base, Runtimes(registry, entries[..i]), mode)
    {
      var found := registry(entries[i]);
      if found.Err? {
        assert FirstRefused(registry, entries, i);
        return found;
      }
      FoldNext(base, registry, entries, i, mode);
      runtime := MergeProfileRuntime(runtime, found.value, mode);
    }
    assert entries[..|entries|] == entries;
    return Ok(runtime);
  }

  lemma FoldNext(base: Option<ProfileRuntime>, registry: Registry, entries: seq<Entry>, i: nat, mode: ToolMergeMode)
    requires i < |entries| && registry(entries[i]).Ok?
    ensures Fold(base, Runtimes(registry, entries[..i + 1]), mode)
         == Merge(Fold(base, Runtimes(registry, entries[..i]), mode), registry(entries[i]).value, mode)
  {
    RuntimesAppend(registry, entries[..i], entries[i]);
    assert entries[..i + 1] == entries[..i] + [entries[i]];
    FoldConcat(base, Runtimes(registry, entries[..i]), [registry(entries[i]).value], mode);
  }

  /** A resolved profile whose settings merge into settings. */
  ghost predicate SettingsMerge(resolved: ResolvedProfile, base: Option<Inference>,
                                merge: (Option<Inference>, Inference) -> Result<Inference>,
                                inference: Option<Inference>)
  {
    if resolved.inference.None? then inference == base
    else inference.Some? && merge(base, resolved.inference.value) == Ok(inference.value)
  }

  /** What makes a plan fail: settings that do not merge, else no registry, else
      the first entry that the registry refuses. */
  ghost predicate Refusal(registry: Option<Registry>, resolved: ResolvedProfile, base: Option<Inference>,
                          merge: (Option<Inference>, Inference) -> Result<Inference>, error: string)
  {
    if resolved.inference.Some? && merge(base, resolved.inference.value).Err? then
      error == merge(base, resolved.inference.value).error
    else if registry.None? then
      error == "profile registry is required to resolve runtime overlays"
    else
      exists i: nat :: FirstRefused(registry.value, EntriesOf(resolved), i)
        && error == registry.value(EntriesOf(resolved)[i]).error
  }

  /** ResolveRuntimePlan; merging inference settings belongs to another
      library. */
  method ResolveRuntimePlan(registry: Option<Registry>, resolved: Option<ResolvedProfile>,
                            baseInference: Option<Inference>, base: Option<ProfileRuntime>, mode: ToolMergeMode,
                            merge: (Option<Inference>, Inference) -> Result<Inference>)
    returns (plan: Result<Plan>)
    ensures resolved.None? ==> plan == Ok(Plan(None, 0, baseInference, base, map[]))
    ensures resolved.Some? && plan.Ok? ==>
              && registry.Some? && AllFound(registry.value, EntriesOf(resolved.value))
              && SettingsMerge(resolved.value, baseInference, merge, plan.value.inference)
              && plan.value.runtime ==
                   Fold(None, [base] + Runtimes(registry.value, EntriesOf(resolved.value)), mode)
              && plan.value.profile == resolved && plan.value.metadata == resolved.value.metadata
              && plan.value.version == ProfileVersion(resolved.value.metadata)
    ensures plan.Err? ==>
              resolved.Some? && Refusal(registry, resolved.value, baseInference, merge, plan.error)
  {
    var inference := baseInference;
    if resolved.Some? && resolved.value.inference.Some? {
      var merged := merge(baseInference, resolved.value.inference.value);
      if merged.Err? {
        return Err(merged.error);
      }
      inference := Some(merged.value);
    }
    if resolved.None? {
      return Ok(Plan(None, ProfileVersion(map[]), inference, base, map[]));
    }
    if registry.None? {
      return Err("profile registry is required to resolve runtime overlays");
    }
    var entries := EntriesOf(resolved.value);
    var runtime := OverlayLineage(registry.value, entries, base, mode);
    if runtime.Err? {
      return Err(runtime.error);
    }
    FoldFromBase(base, Runtimes(registry.value, entries), mode);
    return Ok(Plan(resolved, ProfileVersion(resolved.value.metadata), inference, runtime.value,
                   resolved.value.metadata));
  }

  lemma FoldFromBase(base: Option<ProfileRuntime>, lineage: Lineage, mode: ToolMergeMode)
    ensures Fold(None, [base] + lineage, mode) == Fold(base, lineage, mode)
  {
    assert ([base] + lineage)[1..] == lineage;
  }

  // ----- What a lineage amounts to -----

  /** The last non-blank prompt, trimmed; the first layer's is kept as it is. */
  function LastPrompt(layers: seq<ProfileRuntime>): string
    requires layers != []
  {
    var last := layers[|layers| - 1].systemPrompt;
    if |layers| == 1 then last
    else if TrimSpace(last) != "" then TrimSpace(last)
    else LastPrompt(layers[..|layers| - 1])
  }

  function AllUses(layers: seq<ProfileRuntime>): seq<MiddlewareUse> {
    if layers == [] then [] else AllUses(layers[..|layers| - 1]) + layers[|layers| - 1].middlewares
  }

  function AllTools(layers: seq<ProfileRuntime>): seq<string> {
    if layers == [] then [] else AllTools(layers[..|layers| - 1]) + layers[|layers| - 1].tools
  }

  /** The runtimes of a lineage that are not nil. */
  function Present(lineage: Lineage): seq<ProfileRuntime> {
    if lineage == [] then []
    else Present(lineage[..|lineage| - 1])
         + (if lineage[|lineage| - 1].Some? then [lineage[|lineage| - 1].value] else [])
  }

  /** One layer's middlewares are kept as they are, more are overlaid. */
  function Uses(layers: seq<ProfileRuntime>): seq<MiddlewareUse>
    requires layers != []
  {
    if |layers| == 1 then layers[0].middlewares else Overlay([], AllUses(layers))
  }

  /** One layer's tools are kept as they are; more give a union in order of
      first mention, what the last layer offers, or nothing. */
  function Tools(layers: seq<ProfileRuntime>, mode: ToolMergeMode): seq<string>
    requires layers != []
  {
    if |layers| == 1 then layers[0].tools
    else match mode
      case Replace => NormalTools(layers[|layers| - 1].tools)
      case Unknown => []
      case _ => AddTools([], AllTools(layers))
  }

  /** What layers that are not nil amount to. */
  function Summary(layers: seq<ProfileRuntime>, mode: ToolMergeMode): Option<ProfileRuntime> {
    if layers == [] then None
    else Some(ProfileRuntime(LastPrompt(layers), Uses(layers), Tools(layers, mode)))
  }

  lemma AllOfOne(layers: seq<ProfileRuntime>)
    requires |layers| == 1
    ensures AllUses(layers) == layers[0].middlewares && AllTools(layers) == layers[0].tools
  {
    assert layers[..0] == [];
    assert AllUses(layers[..0]) == [] && AllTools(layers[..0]) == [];
  }

  lemma ToolsOfMore(layers: seq<ProfileRuntime>, last: ProfileRuntime, mode: ToolMergeMode)
    requires layers != []
    ensures MergedTools(Tools(layers, mode), last.tools, if mode.Unset? then Union else mode)
         == Tools(layers + [last], mode)
  {
    var more := layers + [last];
    assert more[..|more| - 1] == layers;
    if mode.Union? || mode.Unset? {
      if |layers| == 1 {
        AllOfOne(layers);
      } else {
        UnionInFront(AllTools(layers), last.tools);
      }
    }
  }

  lemma UsesOfMore(layers: seq<ProfileRuntime>, last: ProfileRuntime)
    requires layers != []
    ensures Overlay([], Uses(layers) + last.middlewares) == Uses(layers + [last])
  {
    var more := layers + [last];
    assert more[..|more| - 1] == layers;
    if |layers| == 1 {
      AllOfOne(layers);
    } else {
      MergedInFront(AllUses(layers), last.middlewares);
    }
  }

  lemma SummaryOfMore(layers: seq<ProfileRuntime>, last: ProfileRuntime, mode: ToolMergeMode)
    ensures Merge(Summary(layers, mode), Some(last), mode) == Summary(layers + [last], mode)
  {
    var more := layers + [last];
    if layers == [] {
      assert more == [last];
    } else {
      assert more[..|more| - 1] == layers;
      ToolsOfMore(layers, last, mode);
      UsesOfMore(layers, last);
    }
  }

  lemma FoldAppend(start: Option<ProfileRuntime>, init: Lineage, last: Option<ProfileRuntime>, mode: ToolMergeMode)
    ensures Fold(start, init + [last], mode) == Merge(Fold(start, init, mode), last, mode)
  {
    FoldConcat(start, init, [last], mode);
    assert [last][1..] == [];
    assert Fold(Merge(Fold(start, init, mode), last, mode), [], mode) == Merge(Fold(start, init, mode), last, mode);
  }

  /** What a lineage merges to in every mode: nil runtimes do not count; one
      runtime alone is kept as it is; two or more give the last non-blank
      prompt, every middleware overlaid in order, and their tools. */
  lemma {:induction false} LineageMeaning(lineage: Lineage, mode: ToolMergeMode)
    ensures Fold(None, lineage, mode) == Summary(Present(lineage), mode)
    decreases |lineage|
  {
    if lineage != [] {
      var init, last := lineage[..|lineage| - 1], lineage[|lineage| - 1];
      assert lineage == init + [last];
      FoldAppend(None, init, last, mode);
      LineageMeaning(init, mode);
      if last.Some? {
        SummaryOfMore(Present(init), last.value, mode);
      } else {
        assert Present(lineage) == Present(init);
      }
    }
  }
}
