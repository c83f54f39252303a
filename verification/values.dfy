/**
 * The values the parse-tree visitors pass up the tree, Python's `in` and
 * `dict.update` on them, and `flatten`, which every reducer applies to the
 * results of a node's children.
 */
module Values {
  import opened Wrappers
  import opened Text

  /** A calendar date (`datetime.date`). */
  datatype Date = Date(year: int, month: int, day: int)

  /**
   * A value returned by a visitor method: a string, a date, a number (money
   * amounts are floats), a dictionary, a list of children's results, or a
   * parse-tree node handed back unchanged by the generic visit.
   */
  datatype Value =
    | Str(s: string)
    | DateValue(date: Date)
    | Number(n: real)
    | Dict(entries: map<string, Value>)
    | List(items: seq<Value>)
    | Node

  /** The Python exceptions the visitors can raise; `ParseError` is the package's own. */
  datatype Raised =
    | TypeError
    | ValueError
    | KeyError
    | AttributeError
    | IndexError
    | RuntimeError
    | OverflowError
    | ParseError

  /** What `flatten` yields: anything but a list or a parse-tree node. */
  predicate IsAtom(v: Value) {
    !v.List? && !v.Node?
  }

  /**
   * `flatten`: nodes are dropped, lists are flattened recursively, every
   * other value is yielded as it is, in order.
   */
  function Flatten(items: seq<Value>): (r: seq<Value>)
    ensures forall v :: v in r ==> IsAtom(v)
    decreases items
  {
    if items == [] then [] else FlattenItem(items[0]) + Flatten(items[1..])
  }

  /** What `flatten` yields for one item of the list. */
  function FlattenItem(v: Value): (r: seq<Value>)
    ensures forall x :: x in r ==> IsAtom(x)
    decreases v
  {
    match v
    case Node => []
    case List(xs) => Flatten(xs)
    case _ => [v]
  }

  /** Flattening distributes over concatenation. */
  lemma {:induction false} FlattenAppend(a: seq<Value>, b: seq<Value>)
    ensures Flatten(a + b) == Flatten(a) + Flatten(b)
    decreases a
  {
    if a == [] {
      assert a + b == b;
    } else {
      var ab := a + b;
      assert ab[0] == a[0];
      assert ab[1..] == a[1..] + b;
      assert Flatten(ab) == FlattenItem(a[0]) + Flatten(a[1..] + b);
      FlattenAppend(a[1..], b);
      assert Flatten(a) == FlattenItem(a[0]) + Flatten(a[1..]);
    }
  }

  /** A list of atoms is already flat. */
  lemma {:induction false} FlattenAtoms(items: seq<Value>)
    requires forall v :: v in items ==> IsAtom(v)
    ensures Flatten(items) == items
    decreases items
  {
    if items != [] {
      assert items[0] in items;
      FlattenAtoms(items[1..]);
      assert [items[0]] + items[1..] == items;
    }
  }

  /** Flattening twice is flattening once. */
  lemma FlattenIdempotent(items: seq<Value>)
    ensures Flatten(Flatten(items)) == Flatten(items)
  {
    FlattenAtoms(Flatten(items));
  }

  /** A list nested in a list flattens to the flattening of its items. */
  lemma {:induction false} FlattenNested(items: seq<Value>)
    ensures Flatten([List(items)]) == Flatten(items)
  {
    assert [List(items)][1..] == [];
  }

  /** A list with one atom in front flattens to that atom and the rest. */
  lemma FlattenAtomFirst(x: Value, rest: seq<Value>)
    requires IsAtom(x)
    ensures Flatten([x] + rest) == [x] + Flatten(rest)
  {
    assert ([x] + rest)[1..] == rest;
  }

  /** The flat cases of the package's own tests of `flatten`. */
  lemma FlattenFlatExamples()
    ensures Flatten([]) == []
    ensures Flatten([Number(1.0)]) == [Number(1.0)]
    ensures Flatten([Number(1.0), Number(2.0), Number(3.0)]) == [Number(1.0), Number(2.0), Number(3.0)]
  {
    FlattenAtoms([Number(1.0)]);
    FlattenAtoms([Number(1.0), Number(2.0), Number(3.0)]);
  }

  /** The nested cases of the package's own tests of `flatten`: empty nests vanish, one string comes out. */
  lemma FlattenNestedExamples()
    ensures Flatten([List([List([])])]) == []
    ensures Flatten([List([List([List([Str("hello")])])])]) == [Str("hello")]
  {
    FlattenNested([List([])]);
    FlattenNested([]);
    FlattenNested([List([List([Str("hello")])])]);
    FlattenNested([List([Str("hello")])]);
    FlattenNested([Str("hello")]);
    FlattenAtoms([Str("hello")]);
  }

  /** The mixed case of the package's own tests of `flatten`: `[[[1], [2, 3]], 4, [[[5], 6], 7], 8]`. */
  lemma FlattenMixedExample()
    ensures Flatten([
        List([List([Number(1.0)]), List([Number(2.0), Number(3.0)])]),
        Number(4.0),
        List([List([List([Number(5.0)]), Number(6.0)]), Number(7.0)]),
        Number(8.0)])
      == [Number(1.0), Number(2.0), Number(3.0), Number(4.0), Number(5.0), Number(6.0), Number(7.0), Number(8.0)]
  {
    FlattenMixed(Number(1.0), Number(2.0), Number(3.0), Number(4.0),
      Number(5.0), Number(6.0), Number(7.0), Number(8.0));
  }

  /** `[[[a], [b, c]], d, [[[e], f], g], h]` flattens to `[a, b, c, d, e, f, g, h]`. */
  lemma FlattenMixed(a: Value, b: Value, c: Value, d: Value, e: Value, f: Value, g: Value, h: Value)
    requires IsAtom(a) && IsAtom(b) && IsAtom(c) && IsAtom(d)
    requires IsAtom(e) && IsAtom(f) && IsAtom(g) && IsAtom(h)
    ensures Flatten([List([List([a]), List([b, c])]), d, List([List([List([e]), f]), g]), h])
      == [a, b, c, d, e, f, g, h]
  {
    FlattenPair(a, b, c);
    FlattenTriple(e, f, g);
    FlattenMixedShape([List([a]), List([b, c])], [List([List([e]), f]), g], d, h);
  }

  /** `[[a], [b, c]]` flattens to `[a, b, c]`. */
  lemma FlattenPair(a: Value, b: Value, c: Value)
    requires IsAtom(a) && IsAtom(b) && IsAtom(c)
    ensures Flatten([List([a]), List([b, c])]) == [a, b, c]
  {
    FlattenAppend([List([a])], [List([b, c])]);
    FlattenNested([a]);
    FlattenNested([b, c]);
    FlattenAtoms([a]);
    FlattenAtoms([b, c]);
  }

  /** `[[[a], b], c]` flattens to `[a, b, c]`. */
  lemma FlattenTriple(a: Value, b: Value, c: Value)
    requires IsAtom(a) && IsAtom(b) && IsAtom(c)
    ensures Flatten([List([List([a]), b]), c]) == [a, b, c]
  {
    var inner := [List([a]), b];
    assert Flatten(inner) == [a, b] by {
      FlattenAppend([List([a])], [b]);
      FlattenNested([a]);
      FlattenAtoms([a]);
      FlattenAtoms([b]);
    }
    FlattenAppend([List(inner)], [c]);
    FlattenNested(inner);
    FlattenAtoms([c]);
  }

  lemma FlattenMixedShape(one: seq<Value>, seven: seq<Value>, four: Value, eight: Value)
    requires IsAtom(four) && IsAtom(eight)
    ensures Flatten([List(one), four, List(seven), eight]) == Flatten(one) + [four] + Flatten(seven) + [eight]
  {
    var t3 := [eight];
    var t2 := [List(seven)] + t3;
    var t1 := [four] + t2;
    assert Flatten(t3) == [eight] by {
      FlattenAtoms(t3);
    }
    assert Flatten(t2) == Flatten(seven) + [eight] by {
      FlattenAppend([List(seven)], t3);
      FlattenNested(seven);
    }
    assert Flatten(t1) == [four] + Flatten(t2) by {
      FlattenAtomFirst(four, t2);
    }
    assert Flatten([List(one)] + t1) == Flatten(one) + Flatten(t1) by {
      FlattenAppend([List(one)], t1);
      FlattenNested(one);
    }
    assert [List(one)] + t1 == [List(one), four, List(seven), eight];
  }

  // ---------------------------------------------------------------------
  // Python operators on values

  /** Whether a value counts as true in a Python condition. */
  predicate Truthy(v: Value) {
    match v
    case Str(s) => s != []
    case DateValue(_) => true
    case Number(n) => n != 0.0
    case Dict(m) => m != map[]
    case List(xs) => xs != []
    case Node => true
  }

  /**
   * `key in v`: a substring test on a string, a key test on a dictionary,
   * an element test on a list or a node's children (never equal to a
   * string); a date or a number cannot be searched.
   */
  function In(key: string, v: Value): (r: Result<bool, Raised>)
    ensures r.Err? <==> v.DateValue? || v.Number?
    ensures v.Dict? ==> r == Ok(key in v.entries)
  {
    match v
    case Str(s) => Ok(Contains(s, key))
    case Dict(m) => Ok(key in m)
    case List(xs) => Ok(Str(key) in xs)
    case Node => Ok(false)
    case _ => Err(TypeError)
  }

  /**
   * `d.update(v)` for a flattened child: a dictionary's entries override
   * those of `d`; a string is a sequence of one-character pieces, none of
   * which is a key-value pair, so only the empty string is accepted; a date
   * or a number is not iterable.
   */
  function Update(d: map<string, Value>, v: Value): (r: Result<map<string, Value>, Raised>)
    requires IsAtom(v)
    ensures r.Ok? <==> v.Dict? || v == Str("")
    ensures v.Dict? ==> r == Ok(d + v.entries)
    ensures v == Str("") ==> r == Ok(d)
  {
    match v
    case Dict(m) => Ok(d + m)
    case Str(s) => if s == [] then Ok(d) else Err(ValueError)
    case _ => Err(TypeError)
  }
}
