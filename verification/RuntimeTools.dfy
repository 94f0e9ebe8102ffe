/** Tools of a runtime: trimmed names, merged as a union or replaced. */
module RuntimeTools {
  import opened Text

  datatype ToolMergeMode = Unset | Union | Replace | Unknown

  // ----- Tools -----

  function AddTool(out: seq<string>, tool: string): seq<string> {
    var name := TrimSpace(tool);
    if name == "" || name in out then out else out + [name]
  }

  function AddTools(out: seq<string>, tools: seq<string>): seq<string>
    decreases |tools|
  {
    if tools == [] then out else AddTools(AddTool(out, tools[0]), tools[1..])
  }

  function NormalTools(tools: seq<string>): seq<string> {
    if tools == [] then []
    else
      var rest := NormalTools(tools[1..]);
      if TrimSpace(tools[0]) == "" then rest else [TrimSpace(tools[0])] + rest
  }

  function MergedTools(base: seq<string>, overlay: seq<string>, mode: ToolMergeMode): seq<string> {
    match mode
    case Replace => NormalTools(overlay)
    case Union => AddTools([], base + overlay)
    case _ => []
  }

  method NormalizeRuntimeTools(tools: seq<string>) returns (out: seq<string>)
    ensures out == NormalTools(tools)
  {
    out := [];
    for i := 0 to |tools|
      invariant out + NormalTools(tools[i..]) == NormalTools(tools)
    {
      var name := TrimSpace(tools[i]);
      assert tools[i..][1..] == tools[i + 1..];
      assert NormalTools(tools[i..]) == (if name == "" then [] else [name]) + NormalTools(tools[i + 1..]);
      if name == "" {
        continue;
      }
      out := out + [name];
    }
  }

  method MergeRuntimeTools(base: seq<string>, overlay: seq<string>, mode: ToolMergeMode)
    returns (out: seq<string>)
    ensures out == MergedTools(base, overlay, mode)
  {
    if mode == Replace {
      out := NormalizeRuntimeTools(overlay);
      return;
    }
    if mode != Union || (|base| == 0 && |overlay| == 0) {
      return [];
    }
    out := [];
    var seen: set<string> := {};
    var both := base + overlay;
    for i := 0 to |both|
      invariant seen == set t | t in out
      invariant AddTools(out, both[i..]) == AddTools([], both)
    {
      assert both[i..][1..] == both[i + 1..];
      assert AddTools(out, both[i..]) == AddTools(AddTool(out, both[i]), both[i + 1..]);
      var name := TrimSpace(both[i]);
      if name == "" || name in seen {
        continue;
      }
      seen := seen + {name};
      out := out + [name];
    }
  }

  lemma {:induction false} AddToolsConcat(out: seq<string>, a: seq<string>, b: seq<string>)
    ensures AddTools(out, a + b) == AddTools(AddTools(out, a), b)
    decreases |a|
  {
    if a == [] {
      assert a + b == b;
    } else {
      assert (a + b)[1..] == a[1..] + b;
      AddToolsConcat(AddTool(out, a[0]), a[1..], b);
    }
  }

  /** Some tool trims to this name. */
  ghost predicate Offers(tools: seq<string>, name: string) {
    exists i :: 0 <= i < |tools| && TrimSpace(tools[i]) == name
  }

  lemma OffersCons(tools: seq<string>, name: string)
    requires tools != []
    ensures Offers(tools, name) <==> TrimSpace(tools[0]) == name || Offers(tools[1..], name)
  {
    if Offers(tools[1..], name) {
      var i :| 0 <= i < |tools[1..]| && TrimSpace(tools[1..][i]) == name;
      assert tools[i + 1] == tools[1..][i];
    }
    if Offers(tools, name) && TrimSpace(tools[0]) != name {
      var i :| 0 <= i < |tools| && TrimSpace(tools[i]) == name;
      assert tools[1..][i - 1] == tools[i];
    }
  }

  /** Exactly the trimmed names offered, each of them once. */
  lemma {:induction false} AddToolsMembers(out: seq<string>, tools: seq<string>)
    ensures forall t :: t in AddTools(out, tools) <==> t in out || (t != "" && Offers(tools, t))
    ensures out <= AddTools(out, tools)
    ensures Distinct(out) ==> Distinct(AddTools(out, tools))
    decreases |tools|
  {
    if tools != [] {
      AddToolsMembers(AddTool(out, tools[0]), tools[1..]);
      forall t ensures t in AddTools(out, tools) <==> t in out || (t != "" && Offers(tools, t)) {
        OffersCons(tools, t);
      }
    }
  }

  /** Index of the first tool that trims to this name, or the length. */
  function FirstMention(tools: seq<string>, name: string): nat {
    if tools == [] || TrimSpace(tools[0]) == name then 0 else 1 + FirstMention(tools[1..], name)
  }

  lemma {:induction false} FirstMentionMeaning(tools: seq<string>, name: string)
    ensures FirstMention(tools, name) <= |tools|
    ensures FirstMention(tools, name) < |tools| ==> TrimSpace(tools[FirstMention(tools, name)]) == name
    ensures forall j | 0 <= j < FirstMention(tools, name) :: TrimSpace(tools[j]) != name
  {
    if tools != [] && TrimSpace(tools[0]) != name {
      FirstMentionMeaning(tools[1..], name);
      forall j | 0 <= j < FirstMention(tools, name) ensures TrimSpace(tools[j]) != name {
        if j > 0 {
          assert tools[j] == tools[1..][j - 1];
        }
      }
    }
  }

  lemma {:induction false} MentionAppend(init: seq<string>, last: string, name: string)
    ensures FirstMention(init + [last], name) ==
              if FirstMention(init, name) < |init| then FirstMention(init, name)
              else if TrimSpace(last) == name then |init| else |init| + 1
  {
    if init != [] {
      assert (init + [last])[1..] == init[1..] + [last];
      MentionAppend(init[1..], last, name);
    } else {
      assert (init + [last])[1..] == [];
    }
  }

  lemma MentionedIsListed(tools: seq<string>, name: string)
    requires name != "" && FirstMention(tools, name) < |tools|
    ensures name in AddTools([], tools)
  {
    FirstMentionMeaning(tools, name);
    assert Offers(tools, name);
    AddToolsMembers([], tools);
  }

  /** Names in the order in which the tools mention them first. */
  ghost predicate InOrderOfMention(tools: seq<string>, names: seq<string>) {
    && (forall i | 0 <= i < |names| :: FirstMention(tools, names[i]) < |tools|)
    && (forall i, j | 0 <= i < j < |names| :: FirstMention(tools, names[i]) < FirstMention(tools, names[j]))
  }

  lemma StillInOrder(init: seq<string>, last: string, names: seq<string>)
    requires InOrderOfMention(init, names)
    ensures InOrderOfMention(init + [last], names)
    ensures forall i | 0 <= i < |names| :: FirstMention(init + [last], names[i]) < |init|
  {
    forall i | 0 <= i < |names| ensures FirstMention(init + [last], names[i]) == FirstMention(init, names[i]) {
      MentionAppend(init, last, names[i]);
    }
  }

  /** A union lists its names in order of first mention. */
  lemma {:induction false} UnionInOrderOfMention(tools: seq<string>)
    ensures InOrderOfMention(tools, AddTools([], tools))
    decreases |tools|
  {
    if tools != [] {
      var init, last := tools[..|tools| - 1], tools[|tools| - 1];
      assert tools == init + [last];
      UnionInOrderOfMention(init);
      AddToolsConcat([], init, [last]);
      var names, name := AddTools([], init), TrimSpace(last);
      StillInOrder(init, last, names);
      if name != "" && name !in names {
        if FirstMention(init, name) < |init| {
          MentionedIsListed(init, name);
        }
        FirstMentionMeaning(init, name);
        MentionAppend(init, last, name);
        assert AddTools([], tools) == names + [name];
      }
    }
  }

  /** Adding tools that were merged first changes nothing. */
  lemma {:induction false} AddMergedTools(out: seq<string>, tools: seq<string>)
    ensures AddTools(out, AddTools([], tools)) == AddTools(out, tools)
    decreases |tools|
  {
    if tools != [] {
      var init, last := tools[..|tools| - 1], tools[|tools| - 1];
      assert tools == init + [last];
      AddMergedTools(out, init);
      AddToolsConcat([], init, [last]);
      AddToolsConcat(out, init, [last]);
      TrimIdempotent(last);
      var merged, name := AddTools([], init), TrimSpace(last);
      if name != "" && name !in merged {
        AddToolsConcat(out, merged, [name]);
      } else if name != "" {
        var i :| 0 <= i < |merged| && merged[i] == name;
        AddToolsMembers(out, merged);
      }
    }
  }

  /** Replaced tools keep their order and number: each gives its trimmed name,
      or nothing if that is blank. */
  lemma {:induction false} NormalToolsEach(a: seq<string>, tool: string, b: seq<string>)
    ensures NormalTools(a + [tool] + b)
         == NormalTools(a) + (if TrimSpace(tool) == "" then [] else [TrimSpace(tool)]) + NormalTools(b)
  {
    if a == [] {
      assert ([] + [tool] + b)[1..] == b;
    } else {
      assert (a + [tool] + b)[1..] == a[1..] + [tool] + b;
      NormalToolsEach(a[1..], tool, b);
    }
  }

  lemma {:induction false} NormalToolsTwice(tools: seq<string>)
    ensures NormalTools(NormalTools(tools)) == NormalTools(tools)
  {
    if tools != [] {
      NormalToolsTwice(tools[1..]);
      TrimIdempotent(tools[0]);
    }
  }

  lemma MergedToolsAssociative(a: seq<string>, b: seq<string>, c: seq<string>, mode: ToolMergeMode)
    ensures MergedTools(MergedTools(a, b, mode), c, mode) == MergedTools(a, MergedTools(b, c, mode), mode)
  {
    match mode
    case Replace =>
      NormalToolsTwice(c);
    case Union =>
      UnionAssociative(a, b, c);
    case _ =>
  }

  lemma UnionInFront(a: seq<string>, b: seq<string>)
    ensures AddTools([], AddTools([], a) + b) == AddTools([], a + b)
  {
    AddToolsConcat([], AddTools([], a), b);
    AddMergedTools([], a);
    AddToolsConcat([], a, b);
  }

  lemma UnionBehind(a: seq<string>, b: seq<string>)
    ensures AddTools([], a + AddTools([], b)) == AddTools([], a + b)
  {
    AddToolsConcat([], a, AddTools([], b));
    AddMergedTools(AddTools([], a), b);
    AddToolsConcat([], a, b);
  }

  lemma UnionEitherSide(a: seq<string>, ab: seq<string>, bc: seq<string>, c: seq<string>)
    requires ab + c == a + bc
    ensures AddTools([], AddTools([], ab) + c) == AddTools([], a + AddTools([], bc))
  {
    UnionInFront(ab, c);
    UnionBehind(a, bc);
  }

  lemma UnionAssociative(a: seq<string>, b: seq<string>, c: seq<string>)
    ensures AddTools([], AddTools([], a + b) + c) == AddTools([], a + AddTools([], b + c))
  {
    var ab, bc := a + b, b + c;
    assert ab + c == a + bc;
    UnionEitherSide(a, ab, bc, c);
  }
}
