/**
 * The structural visitors of both documents. Each one flattens the values
 * its node's children were visited into and folds them, in order, into
 * the value it hands up the tree. Every fold is defined on the last item
 * of its input (so that it follows the loop that computes it), and every
 * raised exception becomes an `Err` that ends the fold.
 */
module Reducers {
  import opened Wrappers
  import opened Markers
  import opened Text
  import opened Values
  import opened Leaves
  import opened PageBreaks

  // =====================================================================
  // Merging dictionaries: visit_docket_section, visit_charge_segment,
  // visit_whole_docket

  /** What `d = {}` followed by `d.update(child)` for every dictionary child leaves in `d`. */
  function Merged(items: seq<Value>): map<string, Value>
  {
    if items == [] then map[]
    else
      var merged := Merged(items[..|items| - 1]);
      var last := items[|items| - 1];
      if last.Dict? then merged + last.entries else merged
  }

  /** A key is in the merge exactly when some dictionary among the items has it. */
  lemma {:induction false} MergedKeys(items: seq<Value>, key: string)
    ensures key in Merged(items) <==> exists i :: 0 <= i < |items| && items[i].Dict? && key in items[i].entries
  {
    if items != [] {
      var p := items[..|items| - 1];
      MergedKeys(p, key);
      if key in Merged(p) {
        var i :| 0 <= i < |p| && p[i].Dict? && key in p[i].entries;
        assert items[i] == p[i];
      }
      if exists i :: 0 <= i < |items| && items[i].Dict? && key in items[i].entries {
        var i :| 0 <= i < |items| && items[i].Dict? && key in items[i].entries;
        if i < |p| {
          assert p[i] == items[i];
        }
      }
    }
  }

  /** The merge holds, for each key, the value of the last dictionary that has it. */
  lemma {:induction false} MergedLastWins(items: seq<Value>, key: string, i: nat)
    requires i < |items| && items[i].Dict? && key in items[i].entries
    requires forall j :: i < j < |items| && items[j].Dict? ==> key !in items[j].entries
    ensures key in Merged(items) && Merged(items)[key] == items[i].entries[key]
    decreases |items|
  {
    var p := items[..|items| - 1];
    if i < |items| - 1 {
      assert forall j :: i < j < |p| && p[j].Dict? ==> key !in p[j].entries by {
        forall j | i < j < |p| && p[j].Dict?
          ensures key !in p[j].entries
        {
          assert p[j] == items[j];
        }
      }
      MergedLastWins(p, key, i);
    }
  }

  /** Merging a concatenation merges the second part over the first. */
  lemma {:induction false} MergedAppend(a: seq<Value>, b: seq<Value>)
    ensures Merged(a + b) == Merged(a) + Merged(b)
    decreases |b|
  {
    if b == [] {
      assert a + b == a;
    } else {
      var b' := b[..|b| - 1];
      assert (a + b)[..|a + b| - 1] == a + b';
      assert (a + b)[|a + b| - 1] == b[|b| - 1];
      MergedAppend(a, b');
      var last := b[|b| - 1];
      if last.Dict? {
        assert Merged(a) + Merged(b') + last.entries == Merged(a) + (Merged(b') + last.entries);
      }
    }
  }

  /**
   * `visit_docket_section`, `visit_charge_segment` and `visit_whole_docket`:
   * the dictionaries among the flattened children merged in order.
   */
  method MergeDicts(children: seq<Value>) returns (merged: map<string, Value>)
    ensures merged == Merged(Flatten(children))
  {
    var items := Flatten(children);
    merged := map[];
    for i := 0 to |items|
      invariant merged == Merged(items[..i])
    {
      assert items[..i + 1][..i] == items[..i];
      if items[i].Dict? {
        merged := merged + items[i].entries;
      }
    }
    assert items[..|items|] == items;
  }

  // =====================================================================
  // visit_charges_section

  /** The dictionaries among the items, in order. */
  function DictsIn(items: seq<Value>): (r: seq<Value>)
    ensures forall v :: v in r ==> v.Dict?
    ensures |r| <= |items|
  {
    if items == [] then []
    else
      var last := items[|items| - 1];
      DictsIn(items[..|items| - 1]) + (if last.Dict? then [last] else [])
  }

  /** Selecting dictionaries keeps them in order: it distributes over concatenation. */
  lemma {:induction false} DictsInAppend(a: seq<Value>, b: seq<Value>)
    ensures DictsIn(a + b) == DictsIn(a) + DictsIn(b)
    decreases |b|
  {
    if b == [] {
      assert a + b == a;
    } else {
      var b' := b[..|b| - 1];
      assert (a + b)[..|a + b| - 1] == a + b';
      assert (a + b)[|a + b| - 1] == b[|b| - 1];
      DictsInAppend(a, b');
    }
  }

  /** Items that are all dictionaries are all kept. */
  lemma {:induction false} DictsInAllDicts(items: seq<Value>)
    requires forall v :: v in items ==> v.Dict?
    ensures DictsIn(items) == items
  {
    if items != [] {
      var p := items[..|items| - 1];
      assert forall v :: v in p ==> v in items;
      DictsInAllDicts(p);
      assert items[|items| - 1] in items;
      assert p + [items[|items| - 1]] == items;
    }
  }

  /** Merging looks only at the dictionaries. */
  lemma {:induction false} MergedDictsIn(items: seq<Value>)
    ensures Merged(DictsIn(items)) == Merged(items)
  {
    if items != [] {
      var p := items[..|items| - 1];
      var last := items[|items| - 1];
      MergedDictsIn(p);
      if last.Dict? {
        var d := DictsIn(p) + [last];
        assert d == DictsIn(items);
        assert d[..|d| - 1] == DictsIn(p) && d[|d| - 1] == last;
      } else {
        assert DictsIn(items) == DictsIn(p) + [];
        assert DictsIn(p) + [] == DictsIn(p);
      }
    }
  }

  /** `visit_charges_section`: the dictionaries among the flattened children, as the `charges` list. */
  method ChargesSection(children: seq<Value>) returns (charges: seq<Value>)
    ensures charges == DictsIn(Flatten(children))
  {
    var items := Flatten(children);
    charges := [];
    for i := 0 to |items|
      invariant charges == DictsIn(items[..i])
    {
      assert items[..i + 1][..i] == items[..i];
      if items[i].Dict? {
        charges := charges + [items[i]];
      }
    }
    assert items[..|items|] == items;
  }

  // =====================================================================
  // generic_visit

  /**
   * `visited_children or node`: the children as a list when there are any,
   * otherwise the node itself. Either way a later `flatten` sees the same
   * values as it would in the children.
   */
  function GenericVisit(children: seq<Value>): (r: Value)
    ensures r.Node? <==> children == []
    ensures Flatten([r]) == Flatten(children)
  {
    FlattenNested(children);
    if children != [] then List(children) else Node
  }

  // =====================================================================
  // visit_whole_summary

  /** `"docket_number" in v`. */
  predicate IsDocket(v: Value) {
    In("docket_number", v) == Ok(true)
  }

  /**
   * One child of the summary: a docket is appended to the `dockets` list
   * (which a dictionary merged earlier may have replaced by a value that
   * cannot be appended to), another dictionary is merged into the summary.
   */
  function SummaryStep(summary: map<string, Value>, v: Value): Result<map<string, Value>, Raised> {
    match In("docket_number", v)
    case Err(e) => Err(e)
    case Ok(isDocket) =>
      if isDocket then
        if "dockets" !in summary then Err(KeyError)
        else if !summary["dockets"].List? then Err(AttributeError)
        else Ok(summary["dockets" := List(summary["dockets"].items + [v])])
      else if v.Dict? then Ok(summary + v.entries)
      else Ok(summary)
  }

  /** The summary after the given children, starting from `{"dockets": []}`. */
  function SummaryFold(items: seq<Value>): Result<map<string, Value>, Raised> {
    if items == [] then Ok(map["dockets" := List([])])
    else
      match SummaryFold(items[..|items| - 1])
      case Err(e) => Err(e)
      case Ok(summary) => SummaryStep(summary, items[|items| - 1])
  }

  /** Once a child raises, the summary fails with that exception. */
  lemma {:induction false} SummaryFoldStops(items: seq<Value>, n: nat)
    requires n <= |items| && SummaryFold(items[..n]).Err?
    ensures SummaryFold(items) == SummaryFold(items[..n])
    decreases |items|
  {
    if n < |items| {
      var p := items[..|items| - 1];
      assert p[..n] == items[..n];
      SummaryFoldStops(p, n);
    } else {
      assert items[..n] == items;
    }
  }

  /** The dockets among the items, in order. */
  function Dockets(items: seq<Value>): seq<Value> {
    if items == [] then []
    else
      var last := items[|items| - 1];
      Dockets(items[..|items| - 1]) + (if IsDocket(last) then [last] else [])
  }

  /** The items that are not dockets, in order. */
  function NonDockets(items: seq<Value>): seq<Value> {
    if items == [] then []
    else
      var last := items[|items| - 1];
      NonDockets(items[..|items| - 1]) + (if IsDocket(last) then [] else [last])
  }

  /** A value that `in` cannot search: it makes the summary raise `TypeError`. */
  predicate Unsearchable(v: Value) {
    v.DateValue? || v.Number?
  }

  /**
   * As long as no child dictionary brings its own `dockets` entry, the
   * summary is every other dictionary merged, with the dockets collected
   * in order under `dockets`; it fails, with `TypeError`, exactly when a
   * date or a number is among the children.
   */
  lemma {:induction false} SummaryOfAtoms(items: seq<Value>)
    requires forall v :: v in items ==> IsAtom(v) && !(v.Dict? && "dockets" in v.entries)
    ensures SummaryFold(items).Err? <==> exists v :: v in items && Unsearchable(v)
    ensures SummaryFold(items).Err? ==> SummaryFold(items).error == TypeError
    ensures SummaryFold(items).Ok? ==>
      SummaryFold(items).value == Merged(NonDockets(items))["dockets" := List(Dockets(items))]
  {
    if items != [] {
      var p := items[..|items| - 1];
      var last := items[|items| - 1];
      assert forall v :: v in p ==> v in items;
      assert last in items;
      assert forall v :: v in items ==> v in p || v == last;
      SummaryOfAtoms(p);
      if SummaryFold(p).Ok? {
        assert SummaryFold(items) == SummaryStep(Merged(NonDockets(p))["dockets" := List(Dockets(p))], last);
        SummaryStepOfAtom(Merged(NonDockets(p)), Dockets(p), NonDockets(p), last);
        if IsDocket(last) {
          assert Dockets(items) == Dockets(p) + [last] && NonDockets(items) == NonDockets(p);
        } else {
          assert Dockets(items) == Dockets(p) && NonDockets(items) == NonDockets(p) + [last];
        }
      }
    }
  }

  lemma SummaryStepOfAtom(merged: map<string, Value>, dockets: seq<Value>, others: seq<Value>, v: Value)
    requires merged == Merged(others) && IsAtom(v) && !(v.Dict? && "dockets" in v.entries)
    ensures SummaryStep(merged["dockets" := List(dockets)], v).Err? <==> Unsearchable(v)
    ensures SummaryStep(merged["dockets" := List(dockets)], v).Err? ==>
      SummaryStep(merged["dockets" := List(dockets)], v).error == TypeError
    ensures SummaryStep(merged["dockets" := List(dockets)], v).Ok? ==>
      if IsDocket(v) then SummaryStep(merged["dockets" := List(dockets)], v).value == merged["dockets" := List(dockets + [v])]
      else SummaryStep(merged["dockets" := List(dockets)], v).value == Merged(others + [v])["dockets" := List(dockets)]
  {
    var s := merged["dockets" := List(dockets)];
    var o := others + [v];
    assert o[..|o| - 1] == others;
    if !IsDocket(v) && v.Dict? {
      assert s + v.entries == (merged + v.entries)["dockets" := List(dockets)];
    }
  }

  /** `visit_whole_summary`: the summary of the flattened children. */
  method WholeSummary(children: seq<Value>) returns (r: Result<map<string, Value>, Raised>)
    ensures r == SummaryFold(Flatten(children))
  {
    var items := Flatten(children);
    var summary := map["dockets" := List([])];
    var i := 0;
    while i < |items|
      invariant i <= |items|
      invariant SummaryFold(items[..i]) == Ok(summary)
    {
      assert items[..i + 1][..i] == items[..i];
      var child := items[i];
      var found := In("docket_number", child);
      if found.Err? {
        SummaryFoldStops(items, i + 1);
        return Err(found.error);
      }
      if found.value {
        if "dockets" !in summary {
          SummaryFoldStops(items, i + 1);
          return Err(KeyError);
        }
        var dockets := summary["dockets"];
        if !dockets.List? {
          SummaryFoldStops(items, i + 1);
          return Err(AttributeError);
        }
        summary := summary["dockets" := List(dockets.items + [child])];
      } else if child.Dict? {
        summary := summary + child.entries;
      }
      i := i + 1;
    }
    assert items[..i] == items;
    r := Ok(summary);
  }

  // =====================================================================
  // visit_category_section

  /** The category heading: the node's text before its first `[`, stripped. */
  function CategoryName(text: string): (r: string)
    ensures PropsOpen !in r
    ensures Strip(r) == r
  {
    var head := Split(text, PropsOpen)[0];
    StripPiece(head);
    StripIdempotent(head);
    Strip(head)
  }

  /** A heading followed by the bracketed properties of its segment is read back as the heading. */
  lemma CategoryOfHeading(heading: string, rest: string)
    requires PropsOpen !in heading && Strip(heading) == heading
    ensures CategoryName(heading + [PropsOpen] + rest) == heading
  {
    SplitAtSeparator(heading, rest, PropsOpen);
  }

  /** What tagging makes of one child: a docket dictionary gains the category. */
  function Tagged(category: string, v: Value): Value {
    if v.Dict? && "docket_number" in v.entries then Dict(v.entries["category" := Str(category)]) else v
  }

  /**
   * One child of a category section: a docket gets `category` set, which
   * only a dictionary allows; anything else is passed on unchanged.
   */
  function TagStep(category: string, out: seq<Value>, v: Value): Result<seq<Value>, Raised> {
    match In("docket_number", v)
    case Err(e) => Err(e)
    case Ok(isDocket) =>
      if !isDocket then Ok(out + [v])
      else if v.Dict? then Ok(out + [Dict(v.entries["category" := Str(category)])])
      else Err(TypeError)
  }

  /** The children of a category section after the given ones are tagged. */
  function TagFold(category: string, items: seq<Value>): Result<seq<Value>, Raised> {
    if items == [] then Ok([])
    else
      match TagFold(category, items[..|items| - 1])
      case Err(e) => Err(e)
      case Ok(out) => TagStep(category, out, items[|items| - 1])
  }

  lemma {:induction false} TagFoldStops(category: string, items: seq<Value>, n: nat)
    requires n <= |items| && TagFold(category, items[..n]).Err?
    ensures TagFold(category, items) == TagFold(category, items[..n])
    decreases |items|
  {
    if n < |items| {
      var p := items[..|items| - 1];
      assert p[..n] == items[..n];
      TagFoldStops(category, p, n);
    } else {
      assert items[..n] == items;
    }
  }

  /** A child that cannot be tagged: `in` refuses it, or it is a string naming a docket. */
  predicate Untaggable(v: Value) {
    Unsearchable(v) || (v.Str? && Contains(v.s, "docket_number"))
  }

  /**
   * Tagging keeps every child in its place, gives each docket dictionary
   * the category and leaves every other child alone; it raises
   * `TypeError`, and only then, when some child cannot be tagged.
   */
  lemma {:induction false} TagFoldOfAtoms(category: string, items: seq<Value>)
    requires forall v :: v in items ==> IsAtom(v)
    ensures TagFold(category, items).Err? <==> exists v :: v in items && Untaggable(v)
    ensures TagFold(category, items).Err? ==> TagFold(category, items).error == TypeError
    ensures TagFold(category, items).Ok? ==>
      |TagFold(category, items).value| == |items|
      && forall i :: 0 <= i < |items| ==> TagFold(category, items).value[i] == Tagged(category, items[i])
  {
    if items != [] {
      var p := items[..|items| - 1];
      var last := items[|items| - 1];
      assert forall v :: v in p ==> v in items;
      assert last in items;
      assert forall v :: v in items ==> v in p || v == last;
      TagFoldOfAtoms(category, p);
      if TagFold(category, p).Ok? {
        var out := TagFold(category, p).value;
        assert TagFold(category, items) == TagStep(category, out, last);
        if TagStep(category, out, last).Ok? {
          var r := TagStep(category, out, last).value;
          assert r == out + [Tagged(category, last)];
          forall i | 0 <= i < |items|
            ensures r[i] == Tagged(category, items[i])
          {
            if i < |p| {
              assert r[i] == out[i] && items[i] == p[i];
            }
          }
        }
      }
    }
  }

  /**
   * `visit_category_section`: the category read from the node's text,
   * given to every docket among the flattened children. The children are
   * returned flattened.
   */
  method CategorySection(text: string, children: seq<Value>) returns (r: Result<seq<Value>, Raised>)
    ensures r == TagFold(CategoryName(text), Flatten(children))
  {
    var category := CategoryName(text);
    var items := Flatten(children);
    var out := [];
    var i := 0;
    while i < |items|
      invariant i <= |items|
      invariant TagFold(category, items[..i]) == Ok(out)
    {
      assert items[..i + 1][..i] == items[..i];
      var child := items[i];
      var found := In("docket_number", child);
      if found.Err? {
        TagFoldStops(category, items, i + 1);
        return Err(found.error);
      }
      if !found.value {
        out := out + [child];
      } else if child.Dict? {
        out := out + [Dict(child.entries["category" := Str(category)])];
      } else {
        TagFoldStops(category, items, i + 1);
        return Err(TypeError);
      }
      i := i + 1;
    }
    assert items[..i] == items;
    r := Ok(out);
  }

  // =====================================================================
  // visit_county_section

  /** The county last read, and the children handled so far. */
  datatype CountyState = CountyState(county: Option<Value>, out: seq<Value>)

  /** `if not county_name`: no county yet, or one that Python counts as false. */
  predicate CountyKnown(county: Option<Value>) {
    county.Some? && Truthy(county.value)
  }

  /**
   * One child of a county section: a county is popped from it and
   * remembered; a docket then gets the remembered county, which must be
   * known. Popping needs a dictionary (a string has no `pop`), and so does
   * setting the county.
   */
  function CountyStep(st: CountyState, v: Value): Result<CountyState, Raised> {
    match In("county", v)
    case Err(e) => Err(e)
    case Ok(hasCounty) =>
      if hasCounty && v.Str? then Err(AttributeError)
      else if hasCounty && !v.Dict? then Err(TypeError)
      else
        var county := if hasCounty then Some(v.entries["county"]) else st.county;
        var child := if hasCounty then Dict(v.entries - {"county"}) else v;
        match In("docket_number", child)
        case Err(e) => Err(e)
        case Ok(isDocket) =>
          if !isDocket then Ok(CountyState(county, st.out + [child]))
          else if !CountyKnown(county) then Err(RuntimeError)
          else if !child.Dict? then Err(TypeError)
          else Ok(CountyState(county, st.out + [Dict(child.entries["county" := county.value])]))
  }

  /** The state of a county section after the given children. */
  function CountyFold(items: seq<Value>): Result<CountyState, Raised> {
    if items == [] then Ok(CountyState(None, []))
    else
      match CountyFold(items[..|items| - 1])
      case Err(e) => Err(e)
      case Ok(st) => CountyStep(st, items[|items| - 1])
  }

  lemma {:induction false} CountyFoldStops(items: seq<Value>, n: nat)
    requires n <= |items| && CountyFold(items[..n]).Err?
    ensures CountyFold(items) == CountyFold(items[..n])
    decreases |items|
  {
    if n < |items| {
      var p := items[..|items| - 1];
      assert p[..n] == items[..n];
      CountyFoldStops(p, n);
    } else {
      assert items[..n] == items;
    }
  }

  /** The children a county section hands back, the error passed on. */
  function CountyOut(r: Result<CountyState, Raised>): (out: Result<seq<Value>, Raised>)
    ensures out.Ok? <==> r.Ok?
    ensures out.Ok? ==> out.value == r.value.out
    ensures out.Err? ==> out.error == r.error
  {
    match r
    case Ok(st) => Ok(st.out)
    case Err(e) => Err(e)
  }

  /** The county of the last dictionary among the items that has one. */
  function LatestCounty(items: seq<Value>): Option<Value> {
    if items == [] then None
    else
      var last := items[|items| - 1];
      if last.Dict? && "county" in last.entries then Some(last.entries["county"])
      else LatestCounty(items[..|items| - 1])
  }

  /** What hoisting makes of one dictionary: its county removed, and a docket given `county`. */
  function Hoisted(v: Value, county: Option<Value>): Value
    requires v.Dict?
  {
    var entries := v.entries - {"county"};
    if "docket_number" in entries && county.Some? then Dict(entries["county" := county.value])
    else Dict(entries)
  }

  /** Every docket among the items has a known county at or before it. */
  ghost predicate DocketsHaveCounty(items: seq<Value>)
    requires forall v :: v in items ==> v.Dict?
  {
    forall i :: 0 <= i < |items| && "docket_number" in items[i].entries ==> CountyKnown(LatestCounty(items[..i + 1]))
  }

  /** `out` is the items, each hoisted with the latest county at or before it. */
  ghost predicate AllHoisted(items: seq<Value>, out: seq<Value>)
    requires forall v :: v in items ==> v.Dict?
  {
    |out| == |items| && forall i :: 0 <= i < |items| ==> out[i] == Hoisted(items[i], LatestCounty(items[..i + 1]))
  }

  lemma DocketsHaveCountySnoc(p: seq<Value>, last: Value)
    requires forall v :: v in p ==> v.Dict?
    requires last.Dict?
    ensures forall v :: v in p + [last] ==> v.Dict?
    ensures DocketsHaveCounty(p + [last]) <==>
      DocketsHaveCounty(p) && ("docket_number" in last.entries ==> CountyKnown(LatestCounty(p + [last])))
  {
    var items := p + [last];
    assert forall v :: v in items ==> v.Dict?;
    assert items[..|p| + 1] == items;
    if DocketsHaveCounty(items) {
      forall i | 0 <= i < |p| && "docket_number" in p[i].entries
        ensures CountyKnown(LatestCounty(p[..i + 1]))
      {
        assert items[..i + 1] == p[..i + 1] && items[i] == p[i];
      }
    }
    if DocketsHaveCounty(p) && ("docket_number" in last.entries ==> CountyKnown(LatestCounty(items))) {
      forall i | 0 <= i < |items| && "docket_number" in items[i].entries
        ensures CountyKnown(LatestCounty(items[..i + 1]))
      {
        if i < |p| {
          assert items[..i + 1] == p[..i + 1] && items[i] == p[i];
        }
      }
    }
  }

  lemma AllHoistedSnoc(p: seq<Value>, out: seq<Value>, last: Value)
    requires forall v :: v in p ==> v.Dict?
    requires last.Dict? && AllHoisted(p, out)
    ensures forall v :: v in p + [last] ==> v.Dict?
    ensures AllHoisted(p + [last], out + [Hoisted(last, LatestCounty(p + [last]))])
  {
    var items := p + [last];
    assert forall i :: 0 <= i < |p| ==> items[..i + 1] == p[..i + 1] && items[i] == p[i];
    assert items[..|p| + 1] == items;
  }

  /**
   * Over dictionaries, a county section moves each county onto the
   * dockets after it: every child loses its own `county`, and every docket
   * gets the latest county read at or before it. It raises
   * `RuntimeError`, and only then, when some docket has no county (or an
   * empty one) before it.
   */
  lemma {:induction false} CountyFoldOfDicts(items: seq<Value>)
    requires forall v :: v in items ==> v.Dict?
    ensures CountyFold(items).Ok? <==> DocketsHaveCounty(items)
    ensures CountyFold(items).Err? ==> CountyFold(items).error == RuntimeError
    ensures CountyFold(items).Ok? ==>
      CountyFold(items).value.county == LatestCounty(items) && AllHoisted(items, CountyFold(items).value.out)
  {
    if items != [] {
      var n := |items| - 1;
      var p := items[..n];
      var last := items[n];
      assert p + [last] == items;
      assert forall v :: v in p ==> v in items;
      assert last in items;
      CountyFoldOfDicts(p);
      DocketsHaveCountySnoc(p, last);
      if CountyFold(p).Ok? {
        var st := CountyFold(p).value;
        assert CountyFold(items) == CountyStep(st, last);
        CountyStepOfDict(st, last, LatestCounty(p));
        assert LatestCounty(items) == if "county" in last.entries then Some(last.entries["county"]) else LatestCounty(p);
        AllHoistedSnoc(p, st.out, last);
      }
    }
  }

  lemma CountyStepOfDict(st: CountyState, v: Value, latest: Option<Value>)
    requires v.Dict? && st.county == latest
    ensures var next := if "county" in v.entries then Some(v.entries["county"]) else latest;
      && (CountyStep(st, v).Ok? <==> ("docket_number" in v.entries ==> CountyKnown(next)))
      && (CountyStep(st, v).Err? ==> CountyStep(st, v).error == RuntimeError)
      && (CountyStep(st, v).Ok? ==> CountyStep(st, v).value == CountyState(next, st.out + [Hoisted(v, next)]))
  {
    var entries := v.entries - {"county"};
    if "county" !in v.entries {
      assert entries == v.entries;
    }
    assert "docket_number" in entries <==> "docket_number" in v.entries;
  }

  /**
   * `visit_county_section`: the latest county moved onto every later
   * docket among the flattened children. The children are returned
   * flattened.
   */
  method CountySection(children: seq<Value>) returns (r: Result<seq<Value>, Raised>)
    ensures r == CountyOut(CountyFold(Flatten(children)))
  {
    var items := Flatten(children);
    var county: Option<Value> := None;
    var out := [];
    var i := 0;
    while i < |items|
      invariant i <= |items|
      invariant CountyFold(items[..i]) == Ok(CountyState(county, out))
    {
      assert items[..i + 1][..i] == items[..i];
      var child := items[i];
      var hasCounty := In("county", child);
      if hasCounty.Err? {
        CountyFoldStops(items, i + 1);
        return Err(hasCounty.error);
      }
      if hasCounty.value {
        if child.Str? {
          CountyFoldStops(items, i + 1);
          return Err(AttributeError);
        } else if !child.Dict? {
          CountyFoldStops(items, i + 1);
          return Err(TypeError);
        }
        county := Some(child.entries["county"]);
        child := Dict(child.entries - {"county"});
      }
      // `child` is neither a date nor a number here, so `in` cannot raise
      var isDocket := In("docket_number", child).value;
      if isDocket {
        if !CountyKnown(county) {
          CountyFoldStops(items, i + 1);
          return Err(RuntimeError);
        }
        if !child.Dict? {
          CountyFoldStops(items, i + 1);
          return Err(TypeError);
        }
        child := Dict(child.entries["county" := county.value]);
      }
      out := out + [child];
      i := i + 1;
    }
    assert items[..i] == items;
    r := Ok(out);
  }

  // =====================================================================
  // DocketVisitor.visit_aliases

  /**
   * One child of a docket's aliases: a child that has an `alias` gives
   * its value, which only a dictionary can be indexed for.
   */
  function AliasStep(aliases: seq<Value>, v: Value): Result<seq<Value>, Raised> {
    match In("alias", v)
    case Err(e) => Err(e)
    case Ok(hasAlias) =>
      if !hasAlias then Ok(aliases)
      else if v.Dict? then Ok(aliases + [v.entries["alias"]])
      else Err(TypeError)
  }

  function AliasFold(items: seq<Value>): Result<seq<Value>, Raised> {
    if items == [] then Ok([])
    else
      match AliasFold(items[..|items| - 1])
      case Err(e) => Err(e)
      case Ok(aliases) => AliasStep(aliases, items[|items| - 1])
  }

  lemma {:induction false} AliasFoldStops(items: seq<Value>, n: nat)
    requires n <= |items| && AliasFold(items[..n]).Err?
    ensures AliasFold(items) == AliasFold(items[..n])
    decreases |items|
  {
    if n < |items| {
      var p := items[..|items| - 1];
      assert p[..n] == items[..n];
      AliasFoldStops(p, n);
    } else {
      assert items[..n] == items;
    }
  }

  /** The `alias` values of the dictionaries that have one, in order. */
  function AliasesIn(items: seq<Value>): seq<Value> {
    if items == [] then []
    else
      var last := items[|items| - 1];
      AliasesIn(items[..|items| - 1]) + (if last.Dict? && "alias" in last.entries then [last.entries["alias"]] else [])
  }

  /** A child whose alias cannot be read: `in` refuses it, or it is a string mentioning "alias". */
  predicate AliasUnreadable(v: Value) {
    Unsearchable(v) || (v.Str? && Contains(v.s, "alias"))
  }

  /**
   * The aliases are the `alias` values of the dictionaries, in order; the
   * visit raises `TypeError`, and only then, when some child's alias
   * cannot be read.
   */
  lemma {:induction false} AliasFoldOfAtoms(items: seq<Value>)
    requires forall v :: v in items ==> IsAtom(v)
    ensures AliasFold(items).Err? <==> exists v :: v in items && AliasUnreadable(v)
    ensures AliasFold(items).Err? ==> AliasFold(items).error == TypeError
    ensures AliasFold(items).Ok? ==> AliasFold(items).value == AliasesIn(items)
  {
    if items != [] {
      var p := items[..|items| - 1];
      var last := items[|items| - 1];
      assert forall v :: v in p ==> v in items;
      assert last in items;
      assert forall v :: v in items ==> v in p || v == last;
      AliasFoldOfAtoms(p);
    }
  }

  /** The alias leaves of a docket come back as its aliases, in order. */
  lemma {:induction false} AliasesOfLeaves(names: seq<string>)
    ensures AliasFold(seq(|names|, i requires 0 <= i < |names| => Dict(map["alias" := Str(names[i])])))
      == Ok(seq(|names|, i requires 0 <= i < |names| => Str(names[i])))
  {
    var leaves := seq(|names|, i requires 0 <= i < |names| => Dict(map["alias" := Str(names[i])]));
    if names != [] {
      var n := |names| - 1;
      var p := names[..n];
      AliasesOfLeaves(p);
      assert leaves[..n] == seq(|p|, i requires 0 <= i < |p| => Dict(map["alias" := Str(p[i])]));
      assert seq(|names|, i requires 0 <= i < |names| => Str(names[i]))
        == seq(|p|, i requires 0 <= i < |p| => Str(p[i])) + [Str(names[n])];
    }
  }

  /** `DocketVisitor.visit_aliases`: the aliases of the flattened children. */
  method DocketAliases(children: seq<Value>) returns (r: Result<seq<Value>, Raised>)
    ensures r == AliasFold(Flatten(children))
  {
    var items := Flatten(children);
    var aliases := [];
    var i := 0;
    while i < |items|
      invariant i <= |items|
      invariant AliasFold(items[..i]) == Ok(aliases)
    {
      assert items[..i + 1][..i] == items[..i];
      var child := items[i];
      var hasAlias := In("alias", child);
      if hasAlias.Err? {
        AliasFoldStops(items, i + 1);
        return Err(hasAlias.error);
      }
      if hasAlias.value {
        if !child.Dict? {
          AliasFoldStops(items, i + 1);
          return Err(TypeError);
        }
        aliases := aliases + [child.entries["alias"]];
      }
      i := i + 1;
    }
    assert items[..i] == items;
    r := Ok(aliases);
  }

  // =====================================================================
  // The pop-and-update loop shared by visit_charge_info,
  // visit_disposition_grade_statute and each case event of
  // visit_section_disposition

  /** The dictionary being built, and the values popped from the children so far. */
  datatype Collected = Collected(info: map<string, Value>, parts: seq<Value>)

  /**
   * One child: if it has `key`, that entry is popped (which needs a
   * dictionary) and kept as a part; then the rest of the child is merged
   * into the dictionary with `update`. A list or a node never gets here,
   * since the children are flattened; they are refused with `TypeError`.
   */
  function CollectStep(key: string, st: Collected, v: Value): Result<Collected, Raised> {
    match In(key, v)
    case Err(e) => Err(e)
    case Ok(has) =>
      if has && v.Str? then Err(AttributeError)
      else if !IsAtom(v) then Err(TypeError)
      else
        var child := if has then Dict(v.entries - {key}) else v;
        var parts := if has then st.parts + [v.entries[key]] else st.parts;
        match Update(st.info, child)
        case Err(e) => Err(e)
        case Ok(info) => Ok(Collected(info, parts))
  }

  function CollectFold(key: string, items: seq<Value>): Result<Collected, Raised> {
    if items == [] then Ok(Collected(map[], []))
    else
      match CollectFold(key, items[..|items| - 1])
      case Err(e) => Err(e)
      case Ok(st) => CollectStep(key, st, items[|items| - 1])
  }

  lemma {:induction false} CollectFoldStops(key: string, items: seq<Value>, n: nat)
    requires n <= |items| && CollectFold(key, items[..n]).Err?
    ensures CollectFold(key, items) == CollectFold(key, items[..n])
    decreases |items|
  {
    if n < |items| {
      var p := items[..|items| - 1];
      assert p[..n] == items[..n];
      CollectFoldStops(key, p, n);
    } else {
      assert items[..n] == items;
    }
  }

  /** The items with `key` taken out of every dictionary. */
  function Without(items: seq<Value>, key: string): (r: seq<Value>)
    ensures |r| == |items|
  {
    if items == [] then []
    else
      var last := items[|items| - 1];
      Without(items[..|items| - 1], key) + [if last.Dict? then Dict(last.entries - {key}) else last]
  }

  /** The values of `key` in the dictionaries that have it, in order. */
  function Popped(items: seq<Value>, key: string): seq<Value> {
    if items == [] then []
    else
      var last := items[|items| - 1];
      Popped(items[..|items| - 1], key) + (if last.Dict? && key in last.entries then [last.entries[key]] else [])
  }

  /** What `update` accepts besides a dictionary: the empty string, an empty sequence of pairs. */
  predicate Collectable(v: Value) {
    v.Dict? || v == Str("")
  }

  /**
   * The loop pops every `key` entry, in order, and merges what is left of
   * the dictionaries; it raises, and only then, when a child is neither a
   * dictionary nor the empty string.
   */
  lemma {:induction false} CollectFoldOfAtoms(key: string, items: seq<Value>)
    requires key != [] && forall v :: v in items ==> IsAtom(v)
    ensures CollectFold(key, items).Err? <==> exists v :: v in items && !Collectable(v)
    ensures CollectFold(key, items).Ok? ==>
      CollectFold(key, items).value == Collected(Merged(Without(items, key)), Popped(items, key))
  {
    if items != [] {
      var p := items[..|items| - 1];
      var last := items[|items| - 1];
      assert items == p + [last];
      assert forall v :: v in items <==> v in p || v == last;
      CollectFoldOfAtoms(key, p);
      var w := Without(items, key);
      assert w[..|w| - 1] == Without(p, key);
      if CollectFold(key, p).Ok? {
        CollectStepOfAtom(key, CollectFold(key, p).value, last);
      }
    }
  }

  /** One child of atoms: accepted exactly when collectable, its `key` entry popped and the rest merged. */
  lemma CollectStepOfAtom(key: string, st: Collected, v: Value)
    requires key != [] && IsAtom(v)
    ensures CollectStep(key, st, v).Ok? <==> Collectable(v)
    ensures CollectStep(key, st, v).Ok? ==> CollectStep(key, st, v).value == Collected(
      if v.Dict? then st.info + (v.entries - {key}) else st.info,
      st.parts + (if v.Dict? && key in v.entries then [v.entries[key]] else []))
  {
    if v.Str? && v.s == [] {
      assert !Contains(v.s, key);
    }
  }

  /**
   * `visit_charge_info` and `visit_disposition_grade_statute` loop over
   * the flattened children with this method.
   */
  method CollectParts(key: string, items: seq<Value>) returns (r: Result<Collected, Raised>)
    ensures r == CollectFold(key, items)
  {
    var info := map[];
    var parts := [];
    var i := 0;
    while i < |items|
      invariant i <= |items|
      invariant CollectFold(key, items[..i]) == Ok(Collected(info, parts))
    {
      assert items[..i + 1][..i] == items[..i];
      var child := items[i];
      var has := In(key, child);
      if has.Err? {
        CollectFoldStops(key, items, i + 1);
        return Err(has.error);
      }
      if has.value && child.Str? {
        CollectFoldStops(key, items, i + 1);
        return Err(AttributeError);
      }
      if !IsAtom(child) {
        CollectFoldStops(key, items, i + 1);
        return Err(TypeError);
      }
      if has.value {
        parts := parts + [child.entries[key]];
        child := Dict(child.entries - {key});
      }
      var updated := Update(info, child);
      if updated.Err? {
        CollectFoldStops(key, items, i + 1);
        return Err(updated.error);
      }
      info := updated.value;
      i := i + 1;
    }
    assert items[..i] == items;
    r := Ok(Collected(info, parts));
  }

  // =====================================================================
  // Descriptions joined from parts

  /** The strings of parts that are all strings. */
  function Texts(parts: seq<Value>): (r: seq<string>)
    requires forall v :: v in parts ==> v.Str?
    ensures |r| == |parts|
  {
    seq(|parts|, i requires 0 <= i < |parts| => parts[i].s)
  }

  /**
   * `' '.join(parts).strip()`: the parts joined by single spaces, white
   * space trimmed from both ends; a part that is not a string makes `join`
   * raise `TypeError`.
   */
  function Description(parts: seq<Value>): (r: Result<string, Raised>)
    ensures r.Ok? <==> forall v :: v in parts ==> v.Str?
    ensures r.Err? ==> r.error == TypeError
    ensures r.Ok? ==> r.value == [] || (!IsSpace(r.value[0]) && !IsSpace(r.value[|r.value| - 1]))
  {
    if forall v :: v in parts ==> v.Str? then Ok(Strip(Join(Texts(parts), ' '))) else Err(TypeError)
  }

  /** A word: non-empty, no white space. */
  predicate IsWord(w: string) {
    w != [] && forall k :: 0 <= k < |w| ==> !IsSpace(w[k])
  }

  lemma {:induction false} JoinOfWordsEnds(words: seq<string>, sep: char)
    requires |words| >= 1 && forall i :: 0 <= i < |words| ==> IsWord(words[i])
    ensures Join(words, sep) != []
    ensures IsWord(words[0]) && Join(words, sep)[0] == words[0][0]
    ensures IsWord(words[|words| - 1])
      && Join(words, sep)[|Join(words, sep)| - 1] == words[|words| - 1][|words[|words| - 1]| - 1]
  {
    if |words| > 1 {
      JoinOfWordsEnds(words[1..], sep);
    }
  }

  /**
   * Words are joined by single spaces and nothing is trimmed: splitting
   * the description at spaces gives the words back.
   */
  lemma DescriptionOfWords(words: seq<string>)
    requires |words| >= 1 && forall i :: 0 <= i < |words| ==> IsWord(words[i])
    ensures Description(seq(|words|, i requires 0 <= i < |words| => Str(words[i]))) == Ok(Join(words, ' '))
    ensures Split(Join(words, ' '), ' ') == words
  {
    var parts := seq(|words|, i requires 0 <= i < |words| => Str(words[i]));
    assert Texts(parts) == words;
    JoinOfWordsEnds(words, ' ');
    var d := Join(words, ' ');
    assert !IsSpace(d[0]) && !IsSpace(d[|d| - 1]) by {
      assert IsWord(words[0]) && IsWord(words[|words| - 1]);
    }
    StripUnchanged(d);
    assert forall i :: 0 <= i < |words| ==> ' ' !in words[i] by {
      forall i | 0 <= i < |words|
        ensures ' ' !in words[i]
      {
        assert IsWord(words[i]);
      }
    }
    SplitJoin(words, ' ');
  }

  /** No parts give an empty description. */
  lemma DescriptionOfNothing()
    ensures Description([]) == Ok("")
  {
    assert Strip("") == "";
  }

  // =====================================================================
  // visit_charge_info and visit_disposition_grade_statute

  /**
   * The loop over the children popping every `key` part, followed by the
   * parts joined into a description stored under `field`.
   */
  function Described(key: string, field: string, items: seq<Value>): Result<map<string, Value>, Raised> {
    match CollectFold(key, items)
    case Err(e) => Err(e)
    case Ok(c) =>
      match Description(c.parts)
      case Err(e) => Err(e)
      case Ok(d) => Ok(c.info[field := Str(d)])
  }

  /**
   * Over dictionaries whose parts are words, the result is every child
   * merged, the parts taken out, and the words joined by single spaces
   * under `field`.
   */
  lemma DescribedOfWords(key: string, field: string, items: seq<Value>, words: seq<string>)
    requires key != [] && forall v :: v in items ==> v.Dict?
    requires |words| >= 1 && forall i :: 0 <= i < |words| ==> IsWord(words[i])
    requires Popped(items, key) == seq(|words|, i requires 0 <= i < |words| => Str(words[i]))
    ensures Described(key, field, items) == Ok(Merged(Without(items, key))[field := Str(Join(words, ' '))])
  {
    CollectFoldOfAtoms(key, items);
    DescriptionOfWords(words);
  }

  /**
   * Over dictionaries, the result fails exactly when a part is not a
   * string (`TypeError` from `join`).
   */
  lemma DescribedOfDicts(key: string, field: string, items: seq<Value>)
    requires key != [] && forall v :: v in items ==> v.Dict?
    ensures Described(key, field, items).Ok? <==> forall v :: v in Popped(items, key) ==> v.Str?
    ensures Described(key, field, items).Err? ==> Described(key, field, items).error == TypeError
    ensures Described(key, field, items).Ok? ==>
      Described(key, field, items).value == Merged(Without(items, key))[field := Str(Description(Popped(items, key)).value)]
  {
    CollectFoldOfAtoms(key, items);
  }

  /** A dictionary result as a value, the error passed on. */
  function DictResult(r: Result<map<string, Value>, Raised>): (v: Result<Value, Raised>)
    ensures v.Ok? <==> r.Ok?
    ensures v.Ok? ==> v.value == Dict(r.value)
    ensures v.Err? ==> v.error == r.error
  {
    match r
    case Ok(m) => Ok(Dict(m))
    case Err(e) => Err(e)
  }

  /** Runs the pop-and-update loop over the flattened children and joins the parts. */
  method Describe(key: string, field: string, children: seq<Value>) returns (r: Result<map<string, Value>, Raised>)
    ensures r == Described(key, field, Flatten(children))
  {
    var collected := CollectParts(key, Flatten(children));
    if collected.Err? {
      return Err(collected.error);
    }
    var description := Description(collected.value.parts);
    if description.Err? {
      return Err(description.error);
    }
    r := Ok(collected.value.info[field := Str(description.value)]);
  }

  /**
   * `visit_charge_info`: the children merged, their description parts
   * joined into `charge_description`, all under `charge_info`.
   */
  method ChargeInfo(children: seq<Value>) returns (r: Result<Value, Raised>)
    ensures r.Ok? <==> Described("charge_description_part", "charge_description", Flatten(children)).Ok?
    ensures r.Ok? ==> r.value == Dict(map["charge_info" := Dict(Described("charge_description_part", "charge_description", Flatten(children)).value)])
    ensures r.Err? ==> r.error == Described("charge_description_part", "charge_description", Flatten(children)).error
  {
    var info := Describe("charge_description_part", "charge_description", children);
    if info.Err? {
      return Err(info.error);
    }
    r := Ok(Dict(map["charge_info" := Dict(info.value)]));
  }

  /**
   * `visit_disposition_grade_statute`: the children merged, their offense
   * disposition parts joined into `offense_disposition`.
   */
  method DispositionGradeStatute(children: seq<Value>) returns (r: Result<Value, Raised>)
    ensures r == DictResult(Described("offense_disposition_part", "offense_disposition", Flatten(children)))
  {
    var info := Describe("offense_disposition_part", "offense_disposition", children);
    r := DictResult(info);
  }

  // =====================================================================
  // visit_section_disposition

  /** The one-character strings iterating a string yields. */
  function Chars(s: string): (r: seq<Value>)
    ensures |r| == |s|
    ensures forall i :: 0 <= i < |s| ==> r[i] == Str([s[i]])
  {
    seq(|s|, i requires 0 <= i < |s| => Str([s[i]]))
  }

  /**
   * `for event in v`: a list yields its items and a string its
   * characters. A dictionary yields its keys, each of which goes on to
   * be a case event: the empty key gives an empty event, any other key
   * makes that event raise `ValueError`. A parse-tree node yields its
   * child nodes, which this model does not hold. A date or a number is not
   * iterable.
   */
  function EventsOf(v: Value): Result<seq<Value>, Raised> {
    match v
    case List(xs) => Ok(xs)
    case Str(s) => Ok(Chars(s))
    case Dict(m) => if m.Keys <= {""} then Ok(if "" in m then [Str("")] else []) else Err(ValueError)
    case Node => Ok([])
    case _ => Err(TypeError)
  }

  /**
   * `flatten(event)`: a list is flattened, a string yields its characters,
   * a node none of its children (they are all nodes). A dictionary yields
   * its keys: the empty key is accepted by `update`; a key mentioning
   * `charge_info` cannot be popped from (`AttributeError`) and any other
   * key is refused by `update` (`ValueError`).
   */
  function CaseEventItems(e: Value): Result<seq<Value>, Raised> {
    match e
    case List(xs) => Ok(Flatten(xs))
    case Str(s) => Ok(Chars(s))
    case Node => Ok([])
    case Dict(m) =>
      if m.Keys <= {""} then Ok(if "" in m then [Str("")] else [])
      else if forall k :: k in m && k != "" ==> Contains(k, "charge_info") then Err(AttributeError)
      else Err(ValueError)
    case _ => Err(TypeError)
  }

  /** One case event: its children merged, their `charge_info` values collected as `charges`. */
  function CaseEvent(e: Value): Result<Value, Raised> {
    match CaseEventItems(e)
    case Err(err) => Err(err)
    case Ok(items) =>
      match CollectFold("charge_info", items)
      case Err(err) => Err(err)
      case Ok(c) => Ok(Dict(c.info["charges" := List(c.parts)]))
  }

  /** The case events made of the given events. */
  function EventsFold(events: seq<Value>): Result<seq<Value>, Raised> {
    if events == [] then Ok([])
    else
      match EventsFold(events[..|events| - 1])
      case Err(e) => Err(e)
      case Ok(out) =>
        match CaseEvent(events[|events| - 1])
        case Err(e) => Err(e)
        case Ok(event) => Ok(out + [event])
  }

  lemma {:induction false} EventsFoldStops(events: seq<Value>, n: nat)
    requires n <= |events| && EventsFold(events[..n]).Err?
    ensures EventsFold(events) == EventsFold(events[..n])
    decreases |events|
  {
    if n < |events| {
      var p := events[..|events| - 1];
      assert p[..n] == events[..n];
      EventsFoldStops(p, n);
    } else {
      assert events[..n] == events;
    }
  }

  /** Each event is made into its case event, in order; the first that raises ends the section. */
  lemma EventsFoldEach(events: seq<Value>)
    ensures EventsFold(events).Ok? <==> forall e :: e in events ==> CaseEvent(e).Ok?
    ensures EventsFold(events).Ok? ==>
      |EventsFold(events).value| == |events|
      && forall i :: 0 <= i < |events| ==> CaseEvent(events[i]) == Ok(EventsFold(events).value[i])
  {
    EventsFoldAccepts(events);
    EventsFoldValues(events);
  }

  lemma {:induction false} EventsFoldAccepts(events: seq<Value>)
    ensures EventsFold(events).Ok? <==> forall e :: e in events ==> CaseEvent(e).Ok?
  {
    if events != [] {
      var p := events[..|events| - 1];
      var last := events[|events| - 1];
      assert events == p + [last];
      assert forall e :: e in events <==> e in p || e == last;
      EventsFoldAccepts(p);
    }
  }

  lemma {:induction false} EventsFoldValues(events: seq<Value>)
    ensures EventsFold(events).Ok? ==>
      |EventsFold(events).value| == |events|
      && forall i :: 0 <= i < |events| ==> CaseEvent(events[i]) == Ok(EventsFold(events).value[i])
  {
    if events != [] && EventsFold(events).Ok? {
      var p := events[..|events| - 1];
      var last := events[|events| - 1];
      EventsFoldValues(p);
      var prefix := EventsFold(p).value;
      var out := EventsFold(events).value;
      assert out == prefix + [CaseEvent(last).value];
      forall i | 0 <= i < |events|
        ensures CaseEvent(events[i]) == Ok(out[i])
      {
        if i < |p| {
          assert events[i] == p[i] && out[i] == prefix[i];
        }
      }
    }
  }

  /** A case event of dictionaries merges them and collects their `charge_info` values in order. */
  lemma CaseEventOfDicts(xs: seq<Value>)
    requires forall v :: v in Flatten(xs) ==> v.Dict?
    ensures CaseEvent(List(xs)) == Ok(Dict(Merged(Without(Flatten(xs), "charge_info"))["charges" := List(Popped(Flatten(xs), "charge_info"))]))
  {
    CollectFoldOfAtoms("charge_info", Flatten(xs));
  }

  /** A string as a case event: only the empty string is accepted, as an empty event. */
  lemma CaseEventOfString(s: string)
    ensures CaseEvent(Str(s)).Ok? <==> s == []
    ensures s == [] ==> CaseEvent(Str(s)) == Ok(Dict(map["charges" := List([])]))
  {
    var items := Chars(s);
    CollectFoldOfAtoms("charge_info", items);
    if s != [] {
      assert items[0] in items && !Collectable(items[0]);
    }
  }

  /**
   * The section's case events, from the second of its exactly two
   * children (unpacking anything else raises `ValueError`).
   */
  function SectionDispositionOf(children: seq<Value>): Result<Value, Raised> {
    if |children| != 2 then Err(ValueError)
    else
      match EventsOf(children[1])
      case Err(e) => Err(e)
      case Ok(events) =>
        match EventsFold(events)
        case Err(e) => Err(e)
        case Ok(out) => Ok(Dict(map["section_disposition" := List(out)]))
  }

  /**
   * A section with a header and a list of events: one case event per
   * event, in order, each as `CaseEvent` makes it; anything but two
   * children raises `ValueError`.
   */
  lemma SectionDispositionOfList(children: seq<Value>)
    ensures |children| != 2 ==> SectionDispositionOf(children) == Err(ValueError)
    ensures |children| == 2 && children[1].List? ==>
      (SectionDispositionOf(children).Ok? <==> forall e :: e in children[1].items ==> CaseEvent(e).Ok?)
    ensures |children| == 2 && children[1].List? && SectionDispositionOf(children).Ok? ==>
      exists out: seq<Value> ::
        && SectionDispositionOf(children) == Ok(Dict(map["section_disposition" := List(out)]))
        && |out| == |children[1].items|
        && forall i :: 0 <= i < |out| ==> CaseEvent(children[1].items[i]) == Ok(out[i])
  {
    if |children| == 2 && children[1].List? {
      EventsFoldEach(children[1].items);
    }
  }

  /** `visit_section_disposition`: a case event per event, each from the pop-and-update loop. */
  method SectionDisposition(children: seq<Value>) returns (r: Result<Value, Raised>)
    ensures r == SectionDispositionOf(children)
  {
    if |children| != 2 {
      return Err(ValueError);
    }
    var events := EventsOf(children[1]);
    if events.Err? {
      return Err(events.error);
    }
    var caseEvents := [];
    var i := 0;
    while i < |events.value|
      invariant i <= |events.value|
      invariant EventsFold(events.value[..i]) == Ok(caseEvents)
    {
      assert events.value[..i + 1][..i] == events.value[..i];
      var items := CaseEventItems(events.value[i]);
      if items.Err? {
        EventsFoldStops(events.value, i + 1);
        return Err(items.error);
      }
      var collected := CollectParts("charge_info", items.value);
      if collected.Err? {
        EventsFoldStops(events.value, i + 1);
        return Err(collected.error);
      }
      caseEvents := caseEvents + [Dict(collected.value.info["charges" := List(collected.value.parts)])];
      i := i + 1;
    }
    assert events.value[..i] == events.value;
    r := Ok(Dict(map["section_disposition" := List(caseEvents)]));
  }

  // =====================================================================
  // Dispatch by rule name

  /** The string leaves of `CourtSummaryVisitor`. */
  const SummaryStringLeaves: seq<string> := [
    "defendant_name_reversed", "docket_number", "otn", "dcn", "county", "proc_status",
    "judge", "grade", "statute", "sequence_number", "disposition", "charge_description"]
  /** The date leaves of `CourtSummaryVisitor`. */
  const SummaryDateLeaves: seq<string> := ["dob", "disposition_date", "arrest_date"]
  /** The rules `CourtSummaryVisitor` has a method of its own for. */
  const SummaryStructures: seq<string> := [
    "whole_summary", "aliases", "category_section", "county_section", "docket_section",
    "charges_section", "charge_segment"]

  /** The string leaves of `DocketVisitor`. */
  const DocketStringLeaves: seq<string> := [
    "defendant_name", "docket_number", "judge", "otn", "originating_docket_number",
    "cross_court_docket_numbers", "alias", "event_disposition", "case_event", "disposition_finality",
    "sequence", "charge_description_part", "grade", "statute", "offense_disposition_part"]
  /** The date leaves of `DocketVisitor`. */
  const DocketDateLeaves: seq<string> := ["dob", "disposition_date", "complaint_date"]
  /** The money leaves of `DocketVisitor`. */
  const DocketMoneyLeaves: seq<string> := ["assessment", "total", "non_monetary", "adjustments", "payments"]
  /** The rules `DocketVisitor` has a method of its own for. */
  const DocketStructures: seq<string> := [
    "whole_docket", "aliases", "section_disposition", "charge_info", "disposition_grade_statute"]

  /** Every rule the visitor of a document handles with a method of its own. */
  function Rules(document: DocumentType): seq<string> {
    match document
    case CourtSummary => SummaryStringLeaves + SummaryDateLeaves + SummaryStructures
    case Docket => DocketStringLeaves + DocketDateLeaves + DocketMoneyLeaves + DocketStructures
  }

  /** A date leaf: `{rule: date}`, or the error reading the date raised. */
  function DateLeaf(rule: string, text: string): (r: Result<Value, Raised>)
    ensures r.Ok? <==> ParseDate(text).Ok?
    ensures r.Ok? ==> r == Ok(Dict(map[rule := DateValue(ParseDate(text).value)]))
    ensures r.Err? ==> r.error == ParseDate(text).error && (r.error == ValueError || r.error == OverflowError)
  {
    match ParseDate(text)
    case Ok(d) => Ok(Dict(map[rule := DateValue(d)]))
    case Err(e) => Err(e)
  }

  /** A money leaf: `{rule: amount}`, or the error reading the amount raised. */
  function MoneyLeaf(rule: string, text: string): (r: Result<Value, Raised>)
    ensures r.Ok? <==> ParseMoney(text).Ok?
    ensures r.Ok? ==> r == Ok(Dict(map[rule := Number(ParseMoney(text).value)]))
    ensures r.Err? ==> r.error == ParseMoney(text).error
  {
    match ParseMoney(text)
    case Ok(x) => Ok(Dict(map[rule := Number(x)]))
    case Err(e) => Err(e)
  }

  /** Strings as values. */
  function Strs(xs: seq<string>): (r: seq<Value>)
    ensures |r| == |xs|
    ensures forall i :: 0 <= i < |xs| ==> r[i] == Str(xs[i])
  {
    seq(|xs|, i requires 0 <= i < |xs| => Str(xs[i]))
  }

  /** A list result as a value, the error passed on. */
  function ListResult(r: Result<seq<Value>, Raised>): (v: Result<Value, Raised>)
    ensures v.Ok? <==> r.Ok?
    ensures v.Ok? ==> v.value == List(r.value)
    ensures v.Err? ==> v.error == r.error
  {
    match r
    case Ok(xs) => Ok(List(xs))
    case Err(e) => Err(e)
  }

  /**
   * The methods a court-summary rule can be visited with. The leaves come
   * first: `setattr` would replace a method of the same name.
   */
  datatype SummaryRule =
    | SummaryStringLeaf
    | SummaryDateLeaf
    | WholeSummaryRule
    | SummaryAliasesRule
    | CategorySectionRule
    | CountySectionRule
    | SummaryMergeRule
    | ChargesSectionRule
    | SummaryGenericRule

  function SummaryRuleOf(rule: string): SummaryRule {
    if rule in SummaryStringLeaves then SummaryStringLeaf
    else if rule in SummaryDateLeaves then SummaryDateLeaf
    else if rule == "whole_summary" then WholeSummaryRule
    else if rule == "aliases" then SummaryAliasesRule
    else if rule == "category_section" then CategorySectionRule
    else if rule == "county_section" then CountySectionRule
    else if rule == "docket_section" || rule == "charge_segment" then SummaryMergeRule
    else if rule == "charges_section" then ChargesSectionRule
    else SummaryGenericRule
  }

  /** The court-summary leaf names are visited as leaves. */
  lemma SummaryLeafRules(rule: string)
    ensures rule in SummaryStringLeaves ==> SummaryRuleOf(rule) == SummaryStringLeaf
    ensures rule in SummaryDateLeaves ==> SummaryRuleOf(rule) == SummaryDateLeaf
  {
  }

  /** The court-summary structural rules are visited with their own methods. */
  lemma SummaryStructureRules()
    ensures SummaryRuleOf("whole_summary") == WholeSummaryRule
    ensures SummaryRuleOf("aliases") == SummaryAliasesRule
    ensures SummaryRuleOf("category_section") == CategorySectionRule
    ensures SummaryRuleOf("county_section") == CountySectionRule
  {
    SummaryStructureNotLeaf("whole_summary");
    SummaryStructureNotLeaf("aliases");
    SummaryStructureNotLeaf("category_section");
    SummaryStructureNotLeaf("county_section");
  }

  /** The court-summary sections that merge or list their dictionaries. */
  lemma SummarySectionRules()
    ensures SummaryRuleOf("docket_section") == SummaryMergeRule
    ensures SummaryRuleOf("charge_segment") == SummaryMergeRule
    ensures SummaryRuleOf("charges_section") == ChargesSectionRule
  {
    SummaryStructureNotLeaf("docket_section");
    SummaryStructureNotLeaf("charge_segment");
    SummaryStructureNotLeaf("charges_section");
  }

  /** No court-summary structural rule is also a leaf. */
  lemma SummaryStructureNotLeaf(rule: string)
    requires rule in SummaryStructures
    ensures rule !in SummaryStringLeaves && rule !in SummaryDateLeaves
  {
  }

  /** Exactly the names the court-summary visitor has no method for get the generic visit. */
  lemma SummaryGenericRules(rule: string)
    ensures SummaryRuleOf(rule) == SummaryGenericRule <==> rule !in Rules(CourtSummary)
  {
  }

  /**
   * `CourtSummaryVisitor`'s visit of one node: the node's rule picks the
   * leaf or the reducer; a rule with no method of its own gets the generic
   * visit.
   */
  method VisitSummaryNode(rule: string, text: string, children: seq<Value>) returns (r: Result<Value, Raised>)
    ensures SummaryRuleOf(rule) == SummaryGenericRule ==> r == Ok(GenericVisit(children))
    ensures SummaryRuleOf(rule) == SummaryStringLeaf ==> r == Ok(Dict(map[rule := Str(SummaryString(text))]))
    ensures SummaryRuleOf(rule) == SummaryDateLeaf ==> r == DateLeaf(rule, text)
    ensures SummaryRuleOf(rule) == WholeSummaryRule ==> r == DictResult(SummaryFold(Flatten(children)))
    ensures SummaryRuleOf(rule) == SummaryAliasesRule ==> r == Ok(Dict(map["aliases" := List(Strs(SummaryAliases(text)))]))
    ensures SummaryRuleOf(rule) == CategorySectionRule ==> r == ListResult(TagFold(CategoryName(text), Flatten(children)))
    ensures SummaryRuleOf(rule) == CountySectionRule ==> r == ListResult(CountyOut(CountyFold(Flatten(children))))
    ensures SummaryRuleOf(rule) == SummaryMergeRule ==> r == Ok(Dict(Merged(Flatten(children))))
    ensures SummaryRuleOf(rule) == ChargesSectionRule ==> r == Ok(Dict(map["charges" := List(DictsIn(Flatten(children)))]))
  {
    match SummaryRuleOf(rule)
    case SummaryStringLeaf =>
      r := Ok(Dict(map[rule := Str(SummaryString(text))]));
    case SummaryDateLeaf =>
      r := DateLeaf(rule, text);
    case WholeSummaryRule =>
      var summary := WholeSummary(children);
      r := DictResult(summary);
    case SummaryAliasesRule =>
      r := Ok(Dict(map["aliases" := List(Strs(SummaryAliases(text)))]));
    case CategorySectionRule =>
      var tagged := CategorySection(text, children);
      r := ListResult(tagged);
    case CountySectionRule =>
      var hoisted := CountySection(children);
      r := ListResult(hoisted);
    case SummaryMergeRule =>
      var merged := MergeDicts(children);
      r := Ok(Dict(merged));
    case ChargesSectionRule =>
      var charges := ChargesSection(children);
      r := Ok(Dict(map["charges" := List(charges)]));
    case SummaryGenericRule =>
      r := Ok(GenericVisit(children));
  }

  /** The methods a docket rule can be visited with, leaves first. */
  datatype DocketRule =
    | DocketStringLeaf
    | DocketDateLeaf
    | DocketMoneyLeaf
    | WholeDocketRule
    | DocketAliasesRule
    | SectionDispositionRule
    | ChargeInfoRule
    | DispositionGradeStatuteRule
    | DocketGenericRule

  function DocketRuleOf(rule: string): DocketRule {
    if rule in DocketStringLeaves then DocketStringLeaf
    else if rule in DocketDateLeaves then DocketDateLeaf
    else if rule in DocketMoneyLeaves then DocketMoneyLeaf
    else if rule == "whole_docket" then WholeDocketRule
    else if rule == "aliases" then DocketAliasesRule
    else if rule == "section_disposition" then SectionDispositionRule
    else if rule == "charge_info" then ChargeInfoRule
    else if rule == "disposition_grade_statute" then DispositionGradeStatuteRule
    else DocketGenericRule
  }

  /** The docket leaf names are visited as leaves. */
  lemma DocketLeafRules(rule: string)
    ensures rule in DocketStringLeaves ==> DocketRuleOf(rule) == DocketStringLeaf
    ensures rule in DocketDateLeaves ==> DocketRuleOf(rule) == DocketDateLeaf
    ensures rule in DocketMoneyLeaves ==> DocketRuleOf(rule) == DocketMoneyLeaf
  {
  }

  /** The docket structural rules are visited with their own methods. */
  lemma DocketStructureRules()
    ensures DocketRuleOf("whole_docket") == WholeDocketRule
    ensures DocketRuleOf("aliases") == DocketAliasesRule
    ensures DocketRuleOf("section_disposition") == SectionDispositionRule
  {
    DocketStructureNotLeaf("whole_docket");
    DocketStructureNotLeaf("aliases");
    DocketStructureNotLeaf("section_disposition");
  }

  /** The docket rules that join description parts. */
  lemma DocketDescriptionRules()
    ensures DocketRuleOf("charge_info") == ChargeInfoRule
    ensures DocketRuleOf("disposition_grade_statute") == DispositionGradeStatuteRule
  {
    DocketStructureNotLeaf("charge_info");
    DocketStructureNotLeaf("disposition_grade_statute");
  }

  /** No docket structural rule is also a leaf. */
  lemma DocketStructureNotLeaf(rule: string)
    requires rule in DocketStructures
    ensures rule !in DocketStringLeaves && rule !in DocketDateLeaves && rule !in DocketMoneyLeaves
  {
  }

  /** Exactly the names the docket visitor has no method for get the generic visit. */
  lemma DocketGenericRules(rule: string)
    ensures DocketRuleOf(rule) == DocketGenericRule <==> rule !in Rules(Docket)
  {
  }

  /**
   * `DocketVisitor`'s visit of one node: the node's rule picks the leaf or
   * the reducer; a rule with no method of its own gets the generic visit.
   */
  method VisitDocketNode(rule: string, text: string, children: seq<Value>) returns (r: Result<Value, Raised>)
    ensures DocketRuleOf(rule) == DocketGenericRule ==> r == Ok(GenericVisit(children))
    ensures DocketRuleOf(rule) == DocketStringLeaf ==> r == Ok(Dict(map[rule := Str(Strip(text))]))
    ensures DocketRuleOf(rule) == DocketDateLeaf ==> r == DateLeaf(rule, text)
    ensures DocketRuleOf(rule) == DocketMoneyLeaf ==> r == MoneyLeaf(rule, text)
    ensures DocketRuleOf(rule) == WholeDocketRule ==> r == Ok(Dict(Merged(Flatten(children))))
    ensures DocketRuleOf(rule) == DocketAliasesRule ==>
      r == (match AliasFold(Flatten(children)) case Ok(xs) => Ok(Dict(map["aliases" := List(xs)])) case Err(e) => Err(e))
    ensures DocketRuleOf(rule) == SectionDispositionRule ==> r == SectionDispositionOf(children)
    ensures DocketRuleOf(rule) == ChargeInfoRule ==>
      r == (match Described("charge_description_part", "charge_description", Flatten(children))
        case Ok(m) => Ok(Dict(map["charge_info" := Dict(m)])) case Err(e) => Err(e))
    ensures DocketRuleOf(rule) == DispositionGradeStatuteRule ==>
      r == DictResult(Described("offense_disposition_part", "offense_disposition", Flatten(children)))
  {
    match DocketRuleOf(rule)
    case DocketStringLeaf =>
      r := Ok(Dict(map[rule := Str(Strip(text))]));
    case DocketDateLeaf =>
      r := DateLeaf(rule, text);
    case DocketMoneyLeaf =>
      r := MoneyLeaf(rule, text);
    case WholeDocketRule =>
      var merged := MergeDicts(children);
      r := Ok(Dict(merged));
    case DocketAliasesRule =>
      var aliases := DocketAliases(children);
      r := if aliases.Ok? then Ok(Dict(map["aliases" := List(aliases.value)])) else Err(aliases.error);
    case SectionDispositionRule =>
      r := SectionDisposition(children);
    case ChargeInfoRule =>
      r := ChargeInfo(children);
    case DispositionGradeStatuteRule =>
      r := DispositionGradeStatute(children);
    case DocketGenericRule =>
      r := Ok(GenericVisit(children));
  }
}
