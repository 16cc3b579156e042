/** The tools a server exposes (internal/mcp/server.go). */
module Exposure {
  import opened Scoping
  import opened Tools

  datatype Spec = Spec(tool: Tool, appOnly: bool, readOnly: bool, needs: seq<Tool>)

  datatype Options = Options(
    allow: set<Tool>, exclude: set<Tool>, readOnly: bool, withoutDisclosure: bool, scope: Scope)

  /** Tools that publish what an agent wrote at once. */
  predicate PublishesAtOnce(tool: Tool) { tool.CreatePullRequest? || tool.UpdatePullRequest? }

  /** The filters, each of which can keep a tool from being exposed. */
  predicate Passes(spec: Spec, options: Options) {
    && (options.allow == {} || spec.tool in options.allow || spec.appOnly)
    && spec.tool !in options.exclude
    && (options.readOnly ==> spec.readOnly)
    && !(options.withoutDisclosure && PublishesAtOnce(spec.tool))
    && !Withheld(spec.tool, options.scope)
  }

  function Filtered(specs: seq<Spec>, options: Options): seq<Spec> {
    if specs == [] then []
    else
      var init, last := Filtered(specs[..|specs| - 1], options), specs[|specs| - 1];
      if Passes(last, options) then init + [last] else init
  }

  function Names(specs: seq<Spec>): set<Tool> {
    set i | 0 <= i < |specs| :: specs[i].tool
  }

  /** The tool shows what no other does, or what one of the named tools answers. */
  predicate Met(spec: Spec, names: set<Tool>) {
    spec.needs == [] || exists i :: 0 <= i < |spec.needs| && spec.needs[i] in names
  }

  function Kept(specs: seq<Spec>, names: set<Tool>): seq<Spec> {
    if specs == [] then []
    else
      var init, last := Kept(specs[..|specs| - 1], names), specs[|specs| - 1];
      if Met(last, names) then init + [last] else init
  }

  lemma {:induction false} KeptShrinks(specs: seq<Spec>, names: set<Tool>)
    ensures |Kept(specs, names)| <= |specs|
    ensures |Kept(specs, names)| == |specs| ==> Kept(specs, names) == specs
  {
    if specs != [] {
      KeptShrinks(specs[..|specs| - 1], names);
      assert specs == specs[..|specs| - 1] + [specs[|specs| - 1]];
    }
  }

  /** What is left once nothing more goes. */
  function Settled(specs: seq<Spec>): seq<Spec>
    decreases |specs|
  {
    var kept := Kept(specs, Names(specs));
    KeptShrinks(specs, Names(specs));
    if |kept| == |specs| then kept else Settled(kept)
  }

  function Exposed(catalogue: seq<Spec>, options: Options): seq<Spec> {
    Settled(Filtered(catalogue, options))
  }

  method NamesOf(specs: seq<Spec>) returns (names: set<Tool>)
    ensures names == Names(specs)
  {
    names := {};
    var index := 0;
    while index < |specs|
      invariant 0 <= index <= |specs|
      invariant names == set i | 0 <= i < index :: specs[i].tool
    {
      names := names + {specs[index].tool};
      index := index + 1;
    }
  }

  method AnyExposed(tools: seq<Tool>, exposed: set<Tool>) returns (any: bool)
    ensures any <==> exists i :: 0 <= i < |tools| && tools[i] in exposed
  {
    var index := 0;
    while index < |tools|
      invariant 0 <= index <= |tools|
      invariant forall i :: 0 <= i < index ==> tools[i] !in exposed
    {
      if tools[index] in exposed {
        return true;
      }
      index := index + 1;
    }
    return false;
  }

  method KeepMet(specs: seq<Spec>, names: set<Tool>) returns (kept: seq<Spec>)
    ensures kept == Kept(specs, names)
  {
    kept := [];
    var index := 0;
    while index < |specs|
      invariant 0 <= index <= |specs|
      invariant kept == Kept(specs[..index], names)
    {
      assert specs[..index + 1][..index] == specs[..index];
      var any := AnyExposed(specs[index].needs, names);
      if |specs[index].needs| == 0 || any {
        kept := kept + [specs[index]];
      }
      index := index + 1;
    }
    assert specs[..index] == specs;
  }

  method ExposedSpecs(catalogue: seq<Spec>, options: Options) returns (exposed: seq<Spec>)
    ensures exposed == Exposed(catalogue, options)
  {
    exposed := [];
    var index := 0;
    while index < |catalogue|
      invariant 0 <= index <= |catalogue|
      invariant exposed == Filtered(catalogue[..index], options)
    {
      var spec := catalogue[index];
      assert catalogue[..index + 1][..index] == catalogue[..index];
      index := index + 1;
      if options.allow != {} && spec.tool !in options.allow && !spec.appOnly { continue; }
      if spec.tool in options.exclude { continue; }
      if options.readOnly && !spec.readOnly { continue; }
      if options.withoutDisclosure && PublishesAtOnce(spec.tool) { continue; }
      if Withheld(spec.tool, options.scope) { continue; }
      exposed := exposed + [spec];
    }
    assert catalogue[..index] == catalogue;
    while true
      invariant Settled(exposed) == Exposed(catalogue, options)
      decreases |exposed|
    {
      var names := NamesOf(exposed);
      var kept := KeepMet(exposed, names);
      KeptShrinks(exposed, names);
      if |kept| == |exposed| {
        return kept;
      }
      exposed := kept;
    }
  }

  // ----- The exposed tools are the most there can be

  /** One sequence is another with some of its elements left out. */
  predicate Within(part: seq<Spec>, whole: seq<Spec>) {
    || (part == [] && whole == [])
    || (whole != [] && Within(part, Init(whole)))
    || (whole != [] && part != [] && Last(part) == Last(whole) && Within(Init(part), Init(whole)))
  }

  function Init(specs: seq<Spec>): seq<Spec>
    requires specs != []
  {
    specs[..|specs| - 1]
  }

  function Last(specs: seq<Spec>): Spec
    requires specs != []
  {
    specs[|specs| - 1]
  }

  /** Every tool that needs others has one of them in the same set. */
  predicate Supported(specs: seq<Spec>) {
    forall i :: 0 <= i < |specs| ==> Met(specs[i], Names(specs))
  }

  lemma {:induction false} WithinItself(specs: seq<Spec>)
    ensures Within(specs, specs)
  {
    if specs != [] {
      WithinItself(Init(specs));
    }
  }

  lemma {:induction false} WithinFurther(part: seq<Spec>, middle: seq<Spec>, whole: seq<Spec>)
    requires Within(part, middle) && Within(middle, whole)
    ensures Within(part, whole)
    decreases |whole|
  {
    if whole != [] {
      if Within(middle, Init(whole)) {
        WithinFurther(part, middle, Init(whole));
      } else if Within(part, Init(middle)) {
        WithinFurther(part, Init(middle), Init(whole));
      } else {
        WithinFurther(Init(part), Init(middle), Init(whole));
      }
    }
  }

  lemma WithinMore(part: seq<Spec>, whole: seq<Spec>, last: Spec)
    requires Within(part, whole)
    ensures Within(part, whole + [last]) && Within(part + [last], whole + [last])
  {
    assert Init(whole + [last]) == whole && Init(part + [last]) == part;
  }

  lemma {:induction false} KeptIsWithin(specs: seq<Spec>, names: set<Tool>)
    ensures Within(Kept(specs, names), specs)
  {
    if specs == [] {
      WithinItself(specs);
    } else {
      KeptIsWithin(specs[..|specs| - 1], names);
      WithinMore(Kept(Init(specs), names), Init(specs), Last(specs));
      assert specs == Init(specs) + [Last(specs)];
    }
  }

  lemma {:induction false} FilteredIsWithin(specs: seq<Spec>, options: Options)
    ensures Within(Filtered(specs, options), specs)
    ensures forall i :: 0 <= i < |Filtered(specs, options)| ==> Passes(Filtered(specs, options)[i], options)
  {
    if specs == [] {
      WithinItself(specs);
    } else {
      FilteredIsWithin(specs[..|specs| - 1], options);
      WithinMore(Filtered(Init(specs), options), Init(specs), Last(specs));
      assert specs == Init(specs) + [Last(specs)];
    }
  }

  /** What is kept is supported once nothing goes. */
  lemma {:induction false} SettledIsSupported(specs: seq<Spec>)
    ensures Within(Settled(specs), specs) && Supported(Settled(specs))
    decreases |specs|
  {
    var kept := Kept(specs, Names(specs));
    KeptShrinks(specs, Names(specs));
    KeptIsWithin(specs, Names(specs));
    if |kept| == |specs| {
      AllKeptAreMet(specs, Names(specs));
    } else {
      SettledIsSupported(kept);
      WithinFurther(Settled(kept), kept, specs);
    }
  }

  lemma {:induction false} AllKeptAreMet(specs: seq<Spec>, names: set<Tool>)
    requires |Kept(specs, names)| == |specs|
    ensures forall i :: 0 <= i < |specs| ==> Met(specs[i], names)
  {
    if specs != [] {
      KeptShrinks(specs[..|specs| - 1], names);
      AllKeptAreMet(specs[..|specs| - 1], names);
    }
  }

  /** What is within is among. */
  lemma {:induction false} Among(part: seq<Spec>, whole: seq<Spec>)
    requires Within(part, whole)
    ensures forall i :: 0 <= i < |part| ==> part[i] in whole
    decreases |whole|
  {
    if whole != [] {
      if Within(part, Init(whole)) {
        Among(part, Init(whole));
      } else {
        Among(Init(part), Init(whole));
        assert forall i :: 0 <= i < |part| - 1 ==> part[i] == Init(part)[i];
      }
    }
  }

  lemma NamesWithin(part: seq<Spec>, whole: seq<Spec>)
    requires Within(part, whole)
    ensures Names(part) <= Names(whole)
  {
    Among(part, whole);
  }

  /** Tools that are all met stay when the others go. */
  lemma {:induction false} StaysKept(part: seq<Spec>, whole: seq<Spec>, names: set<Tool>)
    requires Within(part, whole) && forall i :: 0 <= i < |part| ==> Met(part[i], names)
    ensures Within(part, Kept(whole, names))
    decreases |whole|
  {
    if whole != [] {
      if Within(part, Init(whole)) {
        StaysKept(part, Init(whole), names);
        WithinMore(part, Kept(Init(whole), names), Last(whole));
      } else {
        StaysKept(Init(part), Init(whole), names);
        WithinMore(Init(part), Kept(Init(whole), names), Last(whole));
        assert part == Init(part) + [Last(part)];
      }
    }
  }

  lemma {:induction false} StaysFiltered(part: seq<Spec>, whole: seq<Spec>, options: Options)
    requires Within(part, whole) && forall i :: 0 <= i < |part| ==> Passes(part[i], options)
    ensures Within(part, Filtered(whole, options))
    decreases |whole|
  {
    if whole != [] {
      if Within(part, Init(whole)) {
        StaysFiltered(part, Init(whole), options);
        WithinMore(part, Filtered(Init(whole), options), Last(whole));
      } else {
        StaysFiltered(Init(part), Init(whole), options);
        WithinMore(Init(part), Filtered(Init(whole), options), Last(whole));
        assert part == Init(part) + [Last(part)];
      }
    }
  }

  lemma {:induction false} SettledIsGreatest(specs: seq<Spec>, other: seq<Spec>)
    requires Within(other, specs) && Supported(other)
    ensures Within(other, Settled(specs))
    decreases |specs|
  {
    var names := Names(specs);
    NamesWithin(other, specs);
    StaysKept(other, specs, names);
    KeptShrinks(specs, names);
    if |Kept(specs, names)| != |specs| {
      SettledIsGreatest(Kept(specs, names), other);
    }
  }

  /** A choice of tools from the catalogue, in its order, that pass the filters and support each other. */
  ghost predicate Admissible(choice: seq<Spec>, catalogue: seq<Spec>, options: Options) {
    Within(choice, catalogue) && Supported(choice) && forall i :: 0 <= i < |choice| ==> Passes(choice[i], options)
  }

  /**
   The exposed tools are, in the catalogue's order, the greatest choice of
   tools that pass every filter and of which each that needs others has one
   of those beside it.
   */
  lemma ExposedIsGreatest(catalogue: seq<Spec>, options: Options)
    ensures Admissible(Exposed(catalogue, options), catalogue, options)
    ensures forall choice :: Admissible(choice, catalogue, options) ==> Within(choice, Exposed(catalogue, options))
  {
    var filtered := Filtered(catalogue, options);
    FilteredIsWithin(catalogue, options);
    SettledIsSupported(filtered);
    WithinFurther(Settled(filtered), filtered, catalogue);
    PassesWithin(Settled(filtered), filtered, options);
    forall choice | Admissible(choice, catalogue, options) ensures Within(choice, Exposed(catalogue, options)) {
      StaysFiltered(choice, catalogue, options);
      SettledIsGreatest(filtered, choice);
    }
  }

  lemma PassesWithin(part: seq<Spec>, whole: seq<Spec>, options: Options)
    requires Within(part, whole) && forall i :: 0 <= i < |whole| ==> Passes(whole[i], options)
    ensures forall i :: 0 <= i < |part| ==> Passes(part[i], options)
  {
    Among(part, whole);
  }

  // ----- Which tools are exposed

  /** What the options say of a tool alone. */
  predicate Wanted(spec: Spec, options: Options) {
    && spec.tool !in options.exclude
    && (options.allow != {} && !spec.appOnly ==> spec.tool in options.allow)
    && (options.readOnly ==> spec.readOnly)
    && (options.withoutDisclosure ==> spec.tool !in {CreatePullRequest, UpdatePullRequest})
    && (IsSet(options.scope) ==>
          && spec.tool !in {GetBuildStatus, SetBuildStatus}
          && (options.scope.repo != "" ==> spec.tool != SearchRepositories))
  }

  /** A tool is exposed exactly when the options want it and it needs no other, or one that it needs is exposed too. */
  lemma ExposedExactly(catalogue: seq<Spec>, options: Options, spec: Spec)
    ensures spec in Exposed(catalogue, options)
      <==> && spec in catalogue && Wanted(spec, options)
           && (spec.needs == [] ||
               exists i, j :: 0 <= i < |spec.needs| && 0 <= j < |Exposed(catalogue, options)|
                              && Exposed(catalogue, options)[j].tool == spec.needs[i])
  {
    var filtered := Filtered(catalogue, options);
    var exposed := Settled(filtered);
    WantedPasses(spec, options);
    FilteredHas(catalogue, options, spec);
    SettledIsSupported(filtered);
    Among(exposed, filtered);
    StaysSettled(filtered, spec);
    NamesAre(exposed, spec);
    if spec in exposed {
      var i :| 0 <= i < |exposed| && exposed[i] == spec;
      assert Met(exposed[i], Names(exposed));
    }
  }

  lemma WantedPasses(spec: Spec, options: Options)
    ensures Passes(spec, options) <==> Wanted(spec, options)
  {
  }

  lemma NamesAre(specs: seq<Spec>, spec: Spec)
    ensures Met(spec, Names(specs))
      <==> spec.needs == [] ||
           exists i, j :: 0 <= i < |spec.needs| && 0 <= j < |specs| && specs[j].tool == spec.needs[i]
  {
    if i :| 0 <= i < |spec.needs| && spec.needs[i] in Names(specs) {
      var j :| 0 <= j < |specs| && specs[j].tool == spec.needs[i];
    }
  }

  lemma {:induction false} FilteredHas(specs: seq<Spec>, options: Options, spec: Spec)
    ensures spec in Filtered(specs, options) <==> spec in specs && Passes(spec, options)
  {
    if specs != [] {
      FilteredHas(specs[..|specs| - 1], options, spec);
      assert specs == specs[..|specs| - 1] + [specs[|specs| - 1]];
    }
  }

  lemma {:induction false} KeptHas(specs: seq<Spec>, names: set<Tool>, spec: Spec)
    ensures spec in Kept(specs, names) <==> spec in specs && Met(spec, names)
  {
    if specs != [] {
      KeptHas(specs[..|specs| - 1], names, spec);
      assert specs == specs[..|specs| - 1] + [specs[|specs| - 1]];
    }
  }

  /** A tool that what is left supports is left too. */
  lemma {:induction false} StaysSettled(specs: seq<Spec>, spec: Spec)
    ensures spec in specs && Met(spec, Names(Settled(specs))) ==> spec in Settled(specs)
    decreases |specs|
  {
    var kept := Kept(specs, Names(specs));
    KeptShrinks(specs, Names(specs));
    if |kept| != |specs| {
      StaysSettled(kept, spec);
      SettledIsSupported(kept);
      KeptIsWithin(specs, Names(specs));
      WithinFurther(Settled(kept), kept, specs);
      NamesWithin(Settled(kept), specs);
      KeptHas(specs, Names(specs), spec);
    }
  }
}
