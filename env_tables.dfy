/** The four tables an environment modifier accumulates, the builder
    operations on them, the merge of one modifier into another, and what
    `generate` computes from them, as values. The class in EnvModifier is
    proved against these definitions. */
module EnvTables {
  import opened Common
  import opened ResourceResolver

  /** The separator of path-like variables. */
  const PathSep: char := ':'

  /** `prepend` and `append` map a name to a list of raw values, `overrides`
      maps a name to one raw value; each keeps its keys in insertion order
      (the `...Names` sequences). `unset` is a set of names. */
  datatype Tables = Tables(
    prependNames: seq<string>, prepend: map<string, seq<Json>>,
    appendNames: seq<string>, append: map<string, seq<Json>>,
    overrideNames: seq<string>, overrides: map<string, Json>,
    unset: set<string>)

  predicate Distinct(names: seq<string>)
  {
    forall i, j :: 0 <= i < j < |names| ==> names[i] != names[j]
  }

  /** An insertion-ordered dictionary: the key order lists every key once. */
  ghost predicate Ordered<V>(names: seq<string>, m: map<string, V>)
  {
    Distinct(names) && forall n :: n in m <==> n in names
  }

  ghost predicate Valid(t: Tables)
  {
    && Ordered(t.prependNames, t.prepend)
    && Ordered(t.appendNames, t.append)
    && Ordered(t.overrideNames, t.overrides)
  }

  /** The tables of a freshly constructed modifier. */
  const Empty: Tables := Tables([], map[], [], map[], [], map[], {})

  /** The list stored under a name, or the empty list the builders start from. */
  function Entries(m: map<string, seq<Json>>, name: string): seq<Json>
  {
    if name in m then m[name] else []
  }

  /** Key order after a store under `name`. */
  function Register(names: seq<string>, name: string): (r: seq<string>)
    ensures Distinct(names) ==> Distinct(r)
    ensures forall n :: n in r <==> n in names || n == name
  {
    if name in names then names else names + [name]
  }

  /** What a raw value contributes to a list: a list contributes its
      elements, anything else contributes itself. */
  function Contribution(value: Json): seq<Json>
  {
    if value.JArr? then value.items else [value]
  }

  // ---------------------------------------------------------------------
  // Builders
  // ---------------------------------------------------------------------

  /** `addPrependVar`. */
  function AddPrepend(t: Tables, name: string, value: Json): (r: Tables)
    ensures Valid(t) ==> Valid(r)
    ensures r.(prependNames := t.prependNames, prepend := t.prepend) == t
    ensures forall n :: n != name ==> Entries(r.prepend, n) == Entries(t.prepend, n)
  {
    t.(prependNames := Register(t.prependNames, name),
       prepend := t.prepend[name := Contribution(value) + Entries(t.prepend, name)])
  }

  /** `addAppendVar`. */
  function AddAppend(t: Tables, name: string, value: Json): (r: Tables)
    ensures Valid(t) ==> Valid(r)
    ensures r.(appendNames := t.appendNames, append := t.append) == t
    ensures forall n :: n != name ==> Entries(r.append, n) == Entries(t.append, n)
  {
    t.(appendNames := Register(t.appendNames, name),
       append := t.append[name := Entries(t.append, name) + Contribution(value)])
  }

  /** `setOverrideVar`. */
  function SetOverride(t: Tables, name: string, value: Json): (r: Tables)
    ensures Valid(t) ==> Valid(r)
    ensures r.(overrideNames := t.overrideNames, overrides := t.overrides) == t
  {
    t.(overrideNames := Register(t.overrideNames, name),
       overrides := t.overrides[name := value])
  }

  /** `addUnsetVar`. */
  function AddUnset(t: Tables, name: string): (r: Tables)
    ensures Valid(t) ==> Valid(r)
    ensures r.(unset := t.unset) == t
    ensures forall n :: n in r.unset <==> n in t.unset || n == name
  {
    t.(unset := t.unset + {name})
  }

  /** Prepending single values A then B stores [B, A] ahead of what was
      stored: the most recent single value ends up first. */
  lemma PrependSinglesReverse(t: Tables, name: string, a: Json, b: Json)
    requires !a.JArr? && !b.JArr?
    ensures Entries(AddPrepend(AddPrepend(t, name, a), name, b).prepend, name)
         == [b, a] + Entries(t.prepend, name)
  {
  }

  /** Prepending a list places the whole list, in its own order, ahead of
      what was stored. */
  lemma PrependListAhead(t: Tables, name: string, items: seq<Json>)
    ensures Entries(AddPrepend(t, name, JArr(items)).prepend, name)
         == items + Entries(t.prepend, name)
  {
  }

  /** Appending single values A then B stores [A, B] after what was stored;
      a list is appended in its own order. */
  lemma AppendKeepsOrder(t: Tables, name: string, a: Json, b: Json)
    requires !a.JArr?
    ensures Entries(AddAppend(AddAppend(t, name, a), name, b).append, name)
         == Entries(t.append, name) + [a] + Contribution(b)
  {
  }

  /** The last `setOverrideVar` for a name wins. */
  lemma LastOverrideWins(t: Tables, name: string, a: Json, b: Json)
    ensures SetOverride(SetOverride(t, name, a), name, b).overrides[name] == b
  {
  }

  // ---------------------------------------------------------------------
  // Merging another modifier (`addFromEnvModifier`)
  // ---------------------------------------------------------------------

  /** The prepend loop of `addFromEnvModifier`: each of the other's lists is
      prepended as a list. */
  function MergePrepend(t: Tables, m: map<string, seq<Json>>, names: seq<string>): (r: Tables)
    requires forall n :: n in names ==> n in m
    ensures Valid(t) ==> Valid(r)
    ensures r.(prependNames := t.prependNames, prepend := t.prepend) == t
    ensures forall n :: n in r.prepend <==> n in t.prepend || n in names
    decreases |names|
  {
    if names == [] then t
    else MergePrepend(AddPrepend(t, names[0], JArr(m[names[0]])), m, names[1..])
  }

  /** The append loop of `addFromEnvModifier`. */
  function MergeAppend(t: Tables, m: map<string, seq<Json>>, names: seq<string>): (r: Tables)
    requires forall n :: n in names ==> n in m
    ensures Valid(t) ==> Valid(r)
    ensures r.(appendNames := t.appendNames, append := t.append) == t
    ensures forall n :: n in r.append <==> n in t.append || n in names
    decreases |names|
  {
    if names == [] then t
    else MergeAppend(AddAppend(t, names[0], JArr(m[names[0]])), m, names[1..])
  }

  /** The override loop of `addFromEnvModifier`. */
  function MergeOverride(t: Tables, m: map<string, Json>, names: seq<string>): (r: Tables)
    requires forall n :: n in names ==> n in m
    ensures Valid(t) ==> Valid(r)
    ensures r.(overrideNames := t.overrideNames, overrides := t.overrides) == t
    decreases |names|
  {
    if names == [] then t
    else MergeOverride(SetOverride(t, names[0], m[names[0]]), m, names[1..])
  }

  /** `addFromEnvModifier`: only the other modifier's four tables are copied,
      never its base environment. */
  function Merge(t: Tables, o: Tables): (r: Tables)
    requires Valid(o)
    ensures Valid(t) ==> Valid(r)
    ensures r.unset == t.unset + o.unset
  {
    var t1 := MergePrepend(t, o.prepend, o.prependNames);
    var t2 := MergeAppend(t1, o.append, o.appendNames);
    var t3 := MergeOverride(t2, o.overrides, o.overrideNames);
    t3.(unset := t3.unset + o.unset)
  }

  /** A name the merged lists do not mention keeps its entries. */
  lemma {:induction false} MergePrependElsewhere(t: Tables, m: map<string, seq<Json>>, names: seq<string>, n: string)
    requires forall k :: k in names ==> k in m
    requires n !in names
    ensures Entries(MergePrepend(t, m, names).prepend, n) == Entries(t.prepend, n)
    decreases |names|
  {
    if names != [] {
      assert n != names[0];
      MergePrependElsewhere(AddPrepend(t, names[0], JArr(m[names[0]])), m, names[1..], n);
    }
  }

  lemma {:induction false} MergePrependEntries(t: Tables, m: map<string, seq<Json>>, names: seq<string>, n: string)
    requires forall k :: k in names ==> k in m
    requires Distinct(names)
    requires n in names
    ensures Entries(MergePrepend(t, m, names).prepend, n) == m[n] + Entries(t.prepend, n)
    decreases |names|
  {
    var t1 := AddPrepend(t, names[0], JArr(m[names[0]]));
    if n == names[0] {
      assert n !in names[1..] by {
        forall i | 0 <= i < |names[1..]| ensures names[1..][i] != n {
          assert names[1..][i] == names[i + 1];
        }
      }
      MergePrependElsewhere(t1, m, names[1..], n);
    } else {
      assert Distinct(names[1..]) by {
        forall i, j | 0 <= i < j < |names[1..]| ensures names[1..][i] != names[1..][j] {
          assert names[1..][i] == names[i + 1] && names[1..][j] == names[j + 1];
        }
      }
      assert n in names[1..] by {
        assert names == [names[0]] + names[1..];
      }
      MergePrependEntries(t1, m, names[1..], n);
    }
  }

  /** A name the merged lists do not mention keeps its entries. */
  lemma {:induction false} MergeAppendElsewhere(t: Tables, m: map<string, seq<Json>>, names: seq<string>, n: string)
    requires forall k :: k in names ==> k in m
    requires n !in names
    ensures Entries(MergeAppend(t, m, names).append, n) == Entries(t.append, n)
    decreases |names|
  {
    if names != [] {
      assert n != names[0];
      MergeAppendElsewhere(AddAppend(t, names[0], JArr(m[names[0]])), m, names[1..], n);
    }
  }

  lemma {:induction false} MergeAppendEntries(t: Tables, m: map<string, seq<Json>>, names: seq<string>, n: string)
    requires forall k :: k in names ==> k in m
    requires Distinct(names)
    requires n in names
    ensures Entries(MergeAppend(t, m, names).append, n) == Entries(t.append, n) + m[n]
    decreases |names|
  {
    var t1 := AddAppend(t, names[0], JArr(m[names[0]]));
    if n == names[0] {
      assert n !in names[1..] by {
        forall i | 0 <= i < |names[1..]| ensures names[1..][i] != n {
          assert names[1..][i] == names[i + 1];
        }
      }
      MergeAppendElsewhere(t1, m, names[1..], n);
    } else {
      assert Distinct(names[1..]) by {
        forall i, j | 0 <= i < j < |names[1..]| ensures names[1..][i] != names[1..][j] {
          assert names[1..][i] == names[i + 1] && names[1..][j] == names[j + 1];
        }
      }
      assert n in names[1..] by {
        assert names == [names[0]] + names[1..];
      }
      MergeAppendEntries(t1, m, names[1..], n);
    }
  }

  lemma {:induction false} MergeOverrideValues(t: Tables, m: map<string, Json>, names: seq<string>, n: string)
    requires forall k :: k in names ==> k in m
    ensures var r := MergeOverride(t, m, names);
      && (n in r.overrides <==> n in names || n in t.overrides)
      && (n in names ==> r.overrides[n] == m[n])
      && (n !in names && n in t.overrides ==> r.overrides[n] == t.overrides[n])
    decreases |names|
  {
    if names != [] {
      var t1 := SetOverride(t, names[0], m[names[0]]);
      MergeOverrideValues(t1, m, names[1..], n);
      assert names == [names[0]] + names[1..];
    }
  }

  /** The prepend part of a merge, for one name. */
  lemma MergePrependPart(t: Tables, o: Tables, n: string)
    requires Valid(o)
    ensures var r := Merge(t, o);
      && Entries(r.prepend, n) == Entries(o.prepend, n) + Entries(t.prepend, n)
      && (n in r.prepend <==> n in t.prepend || n in o.prepend)
  {
    var t1 := MergePrepend(t, o.prepend, o.prependNames);
    var t2 := MergeAppend(t1, o.append, o.appendNames);
    var t3 := MergeOverride(t2, o.overrides, o.overrideNames);
    assert Merge(t, o).prepend == t3.prepend == t2.prepend == t1.prepend;
    assert n in o.prepend <==> n in o.prependNames;
    if n in o.prependNames {
      MergePrependEntries(t, o.prepend, o.prependNames, n);
      assert Entries(o.prepend, n) == o.prepend[n];
    } else {
      MergePrependElsewhere(t, o.prepend, o.prependNames, n);
      assert Entries(o.prepend, n) == [];
      assert Entries(o.prepend, n) + Entries(t.prepend, n) == Entries(t.prepend, n);
    }
  }

  /** The append part of a merge, for one name. */
  lemma MergeAppendPart(t: Tables, o: Tables, n: string)
    requires Valid(o)
    ensures var r := Merge(t, o);
      && Entries(r.append, n) == Entries(t.append, n) + Entries(o.append, n)
      && (n in r.append <==> n in t.append || n in o.append)
  {
    var t1 := MergePrepend(t, o.prepend, o.prependNames);
    var t2 := MergeAppend(t1, o.append, o.appendNames);
    var t3 := MergeOverride(t2, o.overrides, o.overrideNames);
    assert Merge(t, o).append == t3.append == t2.append;
    assert t1.append == t.append;
    assert n in o.append <==> n in o.appendNames;
    if n in o.appendNames {
      MergeAppendEntries(t1, o.append, o.appendNames, n);
      assert Entries(o.append, n) == o.append[n];
    } else {
      MergeAppendElsewhere(t1, o.append, o.appendNames, n);
      assert Entries(o.append, n) == [];
      assert Entries(t.append, n) + Entries(o.append, n) == Entries(t.append, n);
    }
  }

  /** The override part of a merge, for one name. */
  lemma MergeOverridePart(t: Tables, o: Tables, n: string)
    requires Valid(o)
    ensures var r := Merge(t, o);
      && (n in r.overrides <==> n in o.overrides || n in t.overrides)
      && (n in o.overrides ==> r.overrides[n] == o.overrides[n])
      && (n !in o.overrides && n in t.overrides ==> r.overrides[n] == t.overrides[n])
  {
    var t1 := MergePrepend(t, o.prepend, o.prependNames);
    var t2 := MergeAppend(t1, o.append, o.appendNames);
    var t3 := MergeOverride(t2, o.overrides, o.overrideNames);
    assert Merge(t, o).overrides == t3.overrides;
    assert t2.overrides == t1.overrides == t.overrides;
    assert n in o.overrides <==> n in o.overrideNames;
    MergeOverrideValues(t2, o.overrides, o.overrideNames, n);
  }

  /** Merging one modifier into another, name by name: the other's prepend
      list goes ahead of the existing entries, its append list after them,
      its overrides replace, and its unsets are added. */
  lemma MergeContents(t: Tables, o: Tables, n: string)
    requires Valid(o)
    ensures var r := Merge(t, o);
      && Entries(r.prepend, n) == Entries(o.prepend, n) + Entries(t.prepend, n)
      && Entries(r.append, n) == Entries(t.append, n) + Entries(o.append, n)
      && (n in r.prepend <==> n in t.prepend || n in o.prepend)
      && (n in r.append <==> n in t.append || n in o.append)
      && (n in r.overrides <==> n in o.overrides || n in t.overrides)
      && (n in o.overrides ==> r.overrides[n] == o.overrides[n])
      && (n !in o.overrides && n in t.overrides ==> r.overrides[n] == t.overrides[n])
      && r.unset == t.unset + o.unset
  {
    MergePrependPart(t, o, n);
    MergeAppendPart(t, o, n);
    MergeOverridePart(t, o, n);
  }

  lemma {:induction false} MergePrependNames(t: Tables, m: map<string, seq<Json>>, names: seq<string>)
    requires forall k :: k in names ==> k in m
    requires Distinct(t.prependNames + names)
    ensures MergePrepend(t, m, names).prependNames == t.prependNames + names
    decreases |names|
  {
    if names != [] {
      var t1 := AddPrepend(t, names[0], JArr(m[names[0]]));
      assert names[0] !in t.prependNames by {
        var s := t.prependNames + names;
        forall i | 0 <= i < |t.prependNames| ensures t.prependNames[i] != names[0] {
          assert s[i] == t.prependNames[i] && s[|t.prependNames|] == names[0];
        }
      }
      assert t1.prependNames + names[1..] == t.prependNames + names;
      MergePrependNames(t1, m, names[1..]);
    }
  }

  lemma {:induction false} MergeAppendNames(t: Tables, m: map<string, seq<Json>>, names: seq<string>)
    requires forall k :: k in names ==> k in m
    requires Distinct(t.appendNames + names)
    ensures MergeAppend(t, m, names).appendNames == t.appendNames + names
    decreases |names|
  {
    if names != [] {
      var t1 := AddAppend(t, names[0], JArr(m[names[0]]));
      assert names[0] !in t.appendNames by {
        var s := t.appendNames + names;
        forall i | 0 <= i < |t.appendNames| ensures t.appendNames[i] != names[0] {
          assert s[i] == t.appendNames[i] && s[|t.appendNames|] == names[0];
        }
      }
      assert t1.appendNames + names[1..] == t.appendNames + names;
      MergeAppendNames(t1, m, names[1..]);
    }
  }

  lemma {:induction false} MergeOverrideNames(t: Tables, m: map<string, Json>, names: seq<string>)
    requires forall k :: k in names ==> k in m
    requires Distinct(t.overrideNames + names)
    ensures MergeOverride(t, m, names).overrideNames == t.overrideNames + names
    decreases |names|
  {
    if names != [] {
      var t1 := SetOverride(t, names[0], m[names[0]]);
      assert names[0] !in t.overrideNames by {
        var s := t.overrideNames + names;
        forall i | 0 <= i < |t.overrideNames| ensures t.overrideNames[i] != names[0] {
          assert s[i] == t.overrideNames[i] && s[|t.overrideNames|] == names[0];
        }
      }
      assert t1.overrideNames + names[1..] == t.overrideNames + names;
      MergeOverrideNames(t1, m, names[1..]);
    }
  }

  lemma MergeIntoEmptyPrepend(o: Tables)
    requires Valid(o)
    ensures Merge(Empty, o).prepend == o.prepend
  {
    var r := Merge(Empty, o);
    forall n | n in o.prepend || n in r.prepend ensures n in r.prepend && n in o.prepend && r.prepend[n] == o.prepend[n] {
      MergePrependPart(Empty, o, n);
      assert Entries(o.prepend, n) + [] == Entries(o.prepend, n);
    }
  }

  lemma MergeIntoEmptyAppend(o: Tables)
    requires Valid(o)
    ensures Merge(Empty, o).append == o.append
  {
    var r := Merge(Empty, o);
    forall n | n in o.append || n in r.append ensures n in r.append && n in o.append && r.append[n] == o.append[n] {
      MergeAppendPart(Empty, o, n);
      assert [] + Entries(o.append, n) == Entries(o.append, n);
    }
  }

  lemma MergeIntoEmptyOverrides(o: Tables)
    requires Valid(o)
    ensures Merge(Empty, o).overrides == o.overrides
  {
    var r := Merge(Empty, o);
    forall n | n in o.overrides || n in r.overrides ensures n in r.overrides && n in o.overrides && r.overrides[n] == o.overrides[n] {
      MergeOverridePart(Empty, o, n);
    }
  }

  lemma NothingBefore(names: seq<string>)
    ensures [] + names == names
  {
  }

  lemma MergeIntoEmptyNames(o: Tables)
    requires Valid(o)
    ensures Merge(Empty, o).prependNames == o.prependNames
    ensures Merge(Empty, o).appendNames == o.appendNames
    ensures Merge(Empty, o).overrideNames == o.overrideNames
  {
    var t1 := MergePrepend(Empty, o.prepend, o.prependNames);
    var t2 := MergeAppend(t1, o.append, o.appendNames);
    var t3 := MergeOverride(t2, o.overrides, o.overrideNames);
    assert Merge(Empty, o) == t3.(unset := t3.unset + o.unset);
    assert t3.prependNames == t2.prependNames == t1.prependNames;
    assert t3.appendNames == t2.appendNames;
    assert t2.overrideNames == t1.overrideNames == [] && t1.appendNames == [];
    NothingBefore(o.prependNames);
    MergePrependNames(Empty, o.prepend, o.prependNames);
    NothingBefore(o.appendNames);
    MergeAppendNames(t1, o.append, o.appendNames);
    NothingBefore(o.overrideNames);
    MergeOverrideNames(t2, o.overrides, o.overrideNames);
  }

  /** Merging a modifier into a fresh one reproduces its tables exactly,
      key order included: the merge is a faithful copy. */
  lemma MergeIntoEmpty(o: Tables)
    requires Valid(o)
    ensures Merge(Empty, o) == o
  {
    MergeIntoEmptyPrepend(o);
    MergeIntoEmptyAppend(o);
    MergeIntoEmptyOverrides(o);
    MergeIntoEmptyNames(o);
  }

  // ---------------------------------------------------------------------
  // Generation
  // ---------------------------------------------------------------------

  /** One list element through the resolver; only text can be resolved. */
  function ResolveElement(r: Resolver, item: Json): Result<string>
  {
    if item.JStr? then Resolve(r, item.s)
    else Err(RuntimeTypeError("a list element is not a string"))
  }

  /** A stored list after conversion (its elements overwritten in place by
      their resolved values, up to the first failure) and the resolved
      elements, or the failure. */
  datatype Converted = Converted(stored: seq<Json>, parts: Result<seq<string>>)

  /** The first `k` elements are resolved and written back as text. */
  ghost predicate WrittenBack(r: Resolver, items: seq<Json>, stored: seq<Json>, k: int)
    requires 0 <= k <= |items| && |stored| == |items|
  {
    forall i :: 0 <= i < k ==>
      ResolveElement(r, items[i]).Ok? && stored[i] == JStr(ResolveElement(r, items[i]).value)
  }

  /** The index loop of `__convertEnvValue` over a list: on success every
      element is resolved and written back in place. */
  function ResolveItems(r: Resolver, items: seq<Json>): (c: Converted)
    ensures |c.stored| == |items|
    ensures c.parts.Ok? ==> |c.parts.value| == |items| && WrittenBack(r, items, c.stored, |items|)
    ensures c.parts.Ok? ==> forall i :: 0 <= i < |items| ==> c.stored[i] == JStr(c.parts.value[i])
    decreases |items|
  {
    if items == [] then Converted([], Ok([]))
    else
      match ResolveElement(r, items[0])
      case Err(e) => Converted(items, Err(e))
      case Ok(s) =>
        var rest := ResolveItems(r, items[1..]);
        var c := Converted([JStr(s)] + rest.stored, if rest.parts.Ok? then Ok([s] + rest.parts.value) else rest.parts);
        assert c.parts.Ok? ==> WrittenBack(r, items, c.stored, |items|) by {
          if c.parts.Ok? {
            forall i | 0 < i < |items|
              ensures ResolveElement(r, items[i]).Ok? && c.stored[i] == JStr(ResolveElement(r, items[i]).value)
            {
              assert items[i] == items[1..][i - 1];
            }
          }
        }
        c
  }

  /** On failure the conversion stops at the first element that fails: the
      elements before it are already overwritten, it and the rest are kept. */
  lemma {:induction false} ResolveItemsFailure(r: Resolver, items: seq<Json>)
    requires ResolveItems(r, items).parts.Err?
    ensures exists k ::
              && 0 <= k < |items|
              && ResolveElement(r, items[k]) == Err(ResolveItems(r, items).parts.error)
              && WrittenBack(r, items, ResolveItems(r, items).stored, k)
              && ResolveItems(r, items).stored[k..] == items[k..]
    decreases |items|
  {
    var c := ResolveItems(r, items);
    if ResolveElement(r, items[0]).Err? {
      assert WrittenBack(r, items, c.stored, 0);
    } else {
      var rest := ResolveItems(r, items[1..]);
      ResolveItemsFailure(r, items[1..]);
      var k :| && 0 <= k < |items[1..]|
               && ResolveElement(r, items[1..][k]) == Err(rest.parts.error)
               && WrittenBack(r, items[1..], rest.stored, k)
               && rest.stored[k..] == items[1..][k..];
      FailureLater(r, items, k);
    }
  }

  /** The step of the lemma above: a failure at index `k` of the tail is a
      failure at index `k + 1` of the whole list. */
  lemma FailureLater(r: Resolver, items: seq<Json>, k: int)
    requires items != [] && ResolveElement(r, items[0]).Ok?
    requires 0 <= k < |items| - 1
    requires var rest := ResolveItems(r, items[1..]);
      && rest.parts.Err?
      && ResolveElement(r, items[1..][k]) == Err(rest.parts.error)
      && WrittenBack(r, items[1..], rest.stored, k)
      && rest.stored[k..] == items[1..][k..]
    ensures var c := ResolveItems(r, items);
      && c.parts.Err?
      && ResolveElement(r, items[k + 1]) == Err(c.parts.error)
      && WrittenBack(r, items, c.stored, k + 1)
      && c.stored[k + 1..] == items[k + 1..]
  {
    var c := ResolveItems(r, items);
    var rest := ResolveItems(r, items[1..]);
    var s := ResolveElement(r, items[0]).value;
    assert c.stored == [JStr(s)] + rest.stored;
    assert c.parts == rest.parts;
    assert c.stored[k + 1..] == rest.stored[k..];
    assert items[k + 1..] == items[1..][k..];
    assert items[k + 1] == items[1..][k];
    forall i | 0 <= i < k + 1
      ensures ResolveElement(r, items[i]).Ok? && c.stored[i] == JStr(ResolveElement(r, items[i]).value)
    {
      if i > 0 {
        assert items[i] == items[1..][i - 1];
        assert c.stored[i] == rest.stored[i - 1];
      }
    }
  }

  /** The joined text of a converted list. */
  function JoinedText(c: Converted): Result<string>
  {
    if c.parts.Ok? then Ok(Join(c.parts.value, PathSep)) else Err(c.parts.error)
  }

  /** A raw value after conversion, and its text or the failure. */
  datatype ConvertedValue = ConvertedValue(stored: Json, text: Result<string>)

  /** `__convertEnvValue`: a string is resolved on its own, inside a fresh
      list, so what is stored does not change; a list is resolved element by
      element in place and joined with the separator; anything else is
      rejected. */
  function ConvertValue(r: Resolver, value: Json): (c: ConvertedValue)
    ensures value.JStr? ==> c == ConvertedValue(value, Resolve(r, value.s))
    ensures !value.JStr? && !value.JArr? ==> c == ConvertedValue(value, Err(InvalidVarValueError))
    ensures value.JArr? ==>
      c == ConvertedValue(JArr(ResolveItems(r, value.items).stored), JoinedText(ResolveItems(r, value.items)))
  {
    match value
    case JStr(s) => ConvertedValue(value, Resolve(r, s))
    case JArr(items) =>
      var c := ResolveItems(r, items);
      ConvertedValue(JArr(c.stored), JoinedText(c))
    case _ => ConvertedValue(value, Err(InvalidVarValueError))
  }

  /** Which end of an existing value a list is joined to. */
  datatype Side = Front | Back

  /** The new value of a prepended (Front) or appended (Back) variable: it
      is joined with the current value only when the variable is set to a
      non-empty value. */
  function Attach(env: Env, name: string, text: string, side: Side): (v: string)
    ensures !(name in env && env[name] != "") ==> v == text
    ensures name in env && env[name] != "" && side == Front ==> v == text + [PathSep] + env[name]
    ensures name in env && env[name] != "" && side == Back ==> v == env[name] + [PathSep] + text
  {
    if name in env && |env[name]| > 0 then
      match side
      case Front => text + [PathSep] + env[name]
      case Back => env[name] + [PathSep] + text
    else text
  }

  /** A table after a pass (its lists written back) and the environment, or
      the failure that stopped the pass. */
  datatype PassResult<V> = PassResult(table: map<string, V>, env: Result<Env>)

  /** `__modifyPrependVars` (Front) and `__modifyAppendVars` (Back). */
  function ListPass(r: Resolver, table: map<string, seq<Json>>, names: seq<string>, env: Env, side: Side): (p: PassResult<seq<Json>>)
    requires forall n :: n in names ==> n in table
    ensures p.table.Keys == table.Keys
    decreases |names|
  {
    if names == [] then PassResult(table, Ok(env))
    else
      var name := names[0];
      var c := ResolveItems(r, table[name]);
      var table' := table[name := c.stored];
      match JoinedText(c)
      case Err(e) => PassResult(table', Err(e))
      case Ok(text) => ListPass(r, table', names[1..], env[name := Attach(env, name, text, side)], side)
  }

  /** `__modifyOverrideVars`. */
  function OverridePass(r: Resolver, table: map<string, Json>, names: seq<string>, env: Env): (p: PassResult<Json>)
    requires forall n :: n in names ==> n in table
    ensures p.table.Keys == table.Keys
    decreases |names|
  {
    if names == [] then PassResult(table, Ok(env))
    else
      var name := names[0];
      var c := ConvertValue(r, table[name]);
      var table' := table[name := c.stored];
      match c.text
      case Err(e) => PassResult(table', Err(e))
      case Ok(text) => OverridePass(r, table', names[1..], env[name := text])
  }

  /** The tables after generation (lists overwritten by their resolved
      values) and the generated environment, or the failure. */
  datatype Generated = Generated(tables: Tables, env: Result<Env>)

  /** `generate`: copy the base environment, then apply prepend, append,
      override and unset, in that order. Every value is resolved against the
      base environment. */
  function Generate(t: Tables, base: Env, shell: Shell): (g: Generated)
    requires Valid(t)
    ensures Valid(g.tables)
    ensures g.tables.prependNames == t.prependNames && g.tables.appendNames == t.appendNames
    ensures g.tables.overrideNames == t.overrideNames && g.tables.unset == t.unset
  {
    var r := Resolver(base, shell);
    var p := ListPass(r, t.prepend, t.prependNames, base, Front);
    var t1 := t.(prepend := p.table);
    if p.env.Err? then Generated(t1, p.env)
    else
      var a := ListPass(r, t.append, t.appendNames, p.env.value, Back);
      var t2 := t1.(append := a.table);
      if a.env.Err? then Generated(t2, a.env)
      else
        var o := OverridePass(r, t.overrides, t.overrideNames, a.env.value);
        var t3 := t2.(overrides := o.table);
        if o.env.Err? then Generated(t3, o.env)
        else Generated(t3, Ok(o.env.value - t.unset))
  }

  /** The text a stored list converts to. */
  function ListText(r: Resolver, items: seq<Json>): Result<string>
  {
    JoinedText(ResolveItems(r, items))
  }

  lemma {:induction false} ListPassElsewhere(r: Resolver, table: map<string, seq<Json>>, names: seq<string>, env: Env, side: Side, n: string)
    requires forall k :: k in names ==> k in table
    requires n !in names
    requires ListPass(r, table, names, env, side).env.Ok?
    ensures var e := ListPass(r, table, names, env, side).env.value;
      (n in e <==> n in env) && (n in env ==> e[n] == env[n])
    decreases |names|
  {
    if names != [] {
      var name := names[0];
      var c := ResolveItems(r, table[name]);
      var text := JoinedText(c).value;
      ListPassElsewhere(r, table[name := c.stored], names[1..], env[name := Attach(env, name, text, side)], side, n);
    }
  }

  lemma {:induction false} ListPassValue(r: Resolver, table: map<string, seq<Json>>, names: seq<string>, env: Env, side: Side, n: string)
    requires forall k :: k in names ==> k in table
    requires Distinct(names) && n in names
    requires ListPass(r, table, names, env, side).env.Ok?
    ensures ListText(r, table[n]).Ok?
    ensures var e := ListPass(r, table, names, env, side).env.value;
      n in e && e[n] == Attach(env, n, ListText(r, table[n]).value, side)
    decreases |names|
  {
    var name := names[0];
    var c := ResolveItems(r, table[name]);
    var text := JoinedText(c).value;
    var table' := table[name := c.stored];
    var env' := env[name := Attach(env, name, text, side)];
    if n == name {
      assert n !in names[1..] by {
        forall i | 0 <= i < |names[1..]| ensures names[1..][i] != n {
          assert names[1..][i] == names[i + 1];
        }
      }
      ListPassElsewhere(r, table', names[1..], env', side, n);
    } else {
      assert Distinct(names[1..]) by {
        forall i, j | 0 <= i < j < |names[1..]| ensures names[1..][i] != names[1..][j] {
          assert names[1..][i] == names[i + 1] && names[1..][j] == names[j + 1];
        }
      }
      assert n in names[1..] by {
        assert names == [names[0]] + names[1..];
      }
      ListPassValue(r, table', names[1..], env', side, n);
    }
  }

  lemma {:induction false} ListPassKeys(r: Resolver, table: map<string, seq<Json>>, names: seq<string>, env: Env, side: Side)
    requires forall k :: k in names ==> k in table
    requires ListPass(r, table, names, env, side).env.Ok?
    ensures ListPass(r, table, names, env, side).env.value.Keys == env.Keys + set n | n in names
    decreases |names|
  {
    if names != [] {
      var name := names[0];
      var c := ResolveItems(r, table[name]);
      var text := JoinedText(c).value;
      ListPassKeys(r, table[name := c.stored], names[1..], env[name := Attach(env, name, text, side)], side);
      assert (set n | n in names) == {name} + set n | n in names[1..] by {
        assert names == [names[0]] + names[1..];
      }
    }
  }

  lemma {:induction false} OverridePassElsewhere(r: Resolver, table: map<string, Json>, names: seq<string>, env: Env, n: string)
    requires forall k :: k in names ==> k in table
    requires n !in names
    requires OverridePass(r, table, names, env).env.Ok?
    ensures var e := OverridePass(r, table, names, env).env.value;
      (n in e <==> n in env) && (n in env ==> e[n] == env[n])
    decreases |names|
  {
    if names != [] {
      var name := names[0];
      var c := ConvertValue(r, table[name]);
      OverridePassElsewhere(r, table[name := c.stored], names[1..], env[name := c.text.value], n);
    }
  }

  lemma {:induction false} OverridePassValue(r: Resolver, table: map<string, Json>, names: seq<string>, env: Env, n: string)
    requires forall k :: k in names ==> k in table
    requires Distinct(names) && n in names
    requires OverridePass(r, table, names, env).env.Ok?
    ensures ConvertValue(r, table[n]).text.Ok?
    ensures var e := OverridePass(r, table, names, env).env.value;
      n in e && e[n] == ConvertValue(r, table[n]).text.value
    decreases |names|
  {
    var name := names[0];
    var c := ConvertValue(r, table[name]);
    var table' := table[name := c.stored];
    var env' := env[name := c.text.value];
    if n == name {
      assert n !in names[1..] by {
        forall i | 0 <= i < |names[1..]| ensures names[1..][i] != n {
          assert names[1..][i] == names[i + 1];
        }
      }
      OverridePassElsewhere(r, table', names[1..], env', n);
    } else {
      assert Distinct(names[1..]) by {
        forall i, j | 0 <= i < j < |names[1..]| ensures names[1..][i] != names[1..][j] {
          assert names[1..][i] == names[i + 1] && names[1..][j] == names[j + 1];
        }
      }
      assert n in names[1..] by {
        assert names == [names[0]] + names[1..];
      }
      OverridePassValue(r, table', names[1..], env', n);
    }
  }

  lemma {:induction false} OverridePassKeys(r: Resolver, table: map<string, Json>, names: seq<string>, env: Env)
    requires forall k :: k in names ==> k in table
    requires OverridePass(r, table, names, env).env.Ok?
    ensures OverridePass(r, table, names, env).env.value.Keys == env.Keys + set n | n in names
    decreases |names|
  {
    if names != [] {
      var name := names[0];
      var c := ConvertValue(r, table[name]);
      OverridePassKeys(r, table[name := c.stored], names[1..], env[name := c.text.value]);
      assert (set n | n in names) == {name} + set n | n in names[1..] by {
        assert names == [names[0]] + names[1..];
      }
    }
  }

  /** The generated environment holds exactly the base names and every name
      prepended, appended or overridden, minus the unset names; unsetting a
      name that is absent changes nothing. */
  lemma GenerateKeys(t: Tables, base: Env, shell: Shell)
    requires Valid(t)
    requires Generate(t, base, shell).env.Ok?
    ensures Generate(t, base, shell).env.value.Keys
         == (base.Keys + t.prepend.Keys + t.append.Keys + t.overrides.Keys) - t.unset
  {
    var r := Resolver(base, shell);
    var p := ListPass(r, t.prepend, t.prependNames, base, Front);
    var a := ListPass(r, t.append, t.appendNames, p.env.value, Back);
    var o := OverridePass(r, t.overrides, t.overrideNames, a.env.value);
    ListPassKeys(r, t.prepend, t.prependNames, base, Front);
    ListPassKeys(r, t.append, t.appendNames, p.env.value, Back);
    OverridePassKeys(r, t.overrides, t.overrideNames, a.env.value);
    OrderedKeys(t.prependNames, t.prepend);
    OrderedKeys(t.appendNames, t.append);
    OrderedKeys(t.overrideNames, t.overrides);
    assert Generate(t, base, shell).env.value == o.env.value - t.unset;
  }

  lemma OrderedKeys<V>(names: seq<string>, m: map<string, V>)
    requires Ordered(names, m)
    ensures (set n | n in names) == m.Keys
  {
  }

  /** An unset name is absent from the result, whatever prepend, append or
      override did to it. */
  lemma GenerateUnsetWins(t: Tables, base: Env, shell: Shell, n: string)
    requires Valid(t)
    requires Generate(t, base, shell).env.Ok?
    requires n in t.unset
    ensures n !in Generate(t, base, shell).env.value
  {
  }

  /** An overridden name that is not unset takes its converted override
      value, whatever the base, prepend and append gave it. */
  lemma GenerateOverrideWins(t: Tables, base: Env, shell: Shell, n: string)
    requires Valid(t)
    requires Generate(t, base, shell).env.Ok?
    requires n in t.overrides && n !in t.unset
    ensures ConvertValue(Resolver(base, shell), t.overrides[n]).text.Ok?
    ensures var e := Generate(t, base, shell).env.value;
      n in e && e[n] == ConvertValue(Resolver(base, shell), t.overrides[n]).text.value
  {
    var r := Resolver(base, shell);
    var p := ListPass(r, t.prepend, t.prependNames, base, Front);
    var a := ListPass(r, t.append, t.appendNames, p.env.value, Back);
    OverridePassValue(r, t.overrides, t.overrideNames, a.env.value, n);
  }

  /** One layer of prepending (Front) or appending (Back) for one name. */
  function Layer(env: Env, name: string, table: map<string, seq<Json>>, r: Resolver, side: Side): Env
    requires name in table ==> ListText(r, table[name]).Ok?
  {
    if name in table then env[name := Attach(env, name, ListText(r, table[name]).value, side)] else env
  }

  /** For a name that is neither overridden nor unset, the result is the
      base value with the prepend layer applied first and the append layer
      second, whatever order the builders were called in. */
  lemma GenerateLayersInOrder(t: Tables, base: Env, shell: Shell, n: string)
    requires Valid(t)
    requires Generate(t, base, shell).env.Ok?
    requires n !in t.overrides && n !in t.unset
    ensures n in t.prepend ==> ListText(Resolver(base, shell), t.prepend[n]).Ok?
    ensures n in t.append ==> ListText(Resolver(base, shell), t.append[n]).Ok?
    ensures var r := Resolver(base, shell);
      var expected := Layer(Layer(base, n, t.prepend, r, Front), n, t.append, r, Back);
      var e := Generate(t, base, shell).env.value;
      (n in e <==> n in expected) && (n in e ==> e[n] == expected[n])
  {
    var r := Resolver(base, shell);
    var p := ListPass(r, t.prepend, t.prependNames, base, Front).env.value;
    var a := ListPass(r, t.append, t.appendNames, p, Back).env.value;
    var o := OverridePass(r, t.overrides, t.overrideNames, a).env.value;
    assert Generate(t, base, shell).env.value == o - t.unset;
    PassLayer(r, t.prepend, t.prependNames, base, Front, n);
    var e1 := Layer(base, n, t.prepend, r, Front);
    PassLayer(r, t.append, t.appendNames, p, Back, n);
    LayerAgrees(p, e1, n, t.append, r, Back);
    assert SameAt(o, a, n) by {
      OverridePassElsewhere(r, t.overrides, t.overrideNames, a, n);
    }
  }

  /** Two environments agree on a name. */
  ghost predicate SameAt(x: Env, y: Env, n: string)
  {
    (n in x <==> n in y) && (n in x ==> x[n] == y[n])
  }

  /** A layer for a name depends only on the name's value before it. */
  lemma LayerAgrees(x: Env, y: Env, n: string, table: map<string, seq<Json>>, r: Resolver, side: Side)
    requires SameAt(x, y, n)
    requires n in table ==> ListText(r, table[n]).Ok?
    ensures SameAt(Layer(x, n, table, r, side), Layer(y, n, table, r, side), n)
  {
  }

  /** One pass, seen from one name: the name's value after the pass is its
      layer over the value before. */
  lemma PassLayer(r: Resolver, table: map<string, seq<Json>>, names: seq<string>, env: Env, side: Side, n: string)
    requires Ordered(names, table)
    requires ListPass(r, table, names, env, side).env.Ok?
    ensures n in table ==> ListText(r, table[n]).Ok?
    ensures SameAt(ListPass(r, table, names, env, side).env.value, Layer(env, n, table, r, side), n)
  {
    if n in names {
      ListPassValue(r, table, names, env, side, n);
    } else {
      ListPassElsewhere(r, table, names, env, side, n);
    }
  }

  /** A name no table mentions keeps its base value. */
  lemma GenerateKeepsOtherNames(t: Tables, base: Env, shell: Shell, n: string)
    requires Valid(t)
    requires Generate(t, base, shell).env.Ok?
    requires n !in t.prepend && n !in t.append && n !in t.overrides && n !in t.unset
    ensures var e := Generate(t, base, shell).env.value;
      (n in e <==> n in base) && (n in base ==> e[n] == base[n])
  {
    GenerateLayersInOrder(t, base, shell, n);
  }

  /** The tables holding one list under one name, in the prepend table
      (Front) or the append table (Back), and nothing else. */
  function SingleList(name: string, items: seq<Json>, side: Side): (t: Tables)
    ensures Valid(t)
  {
    match side
    case Front => Tables([name], map[name := items], [], map[], [], map[], {})
    case Back => Tables([], map[], [name], map[name := items], [], map[], {})
  }

  /** Two single text values prepended to fresh tables form one list. */
  lemma PrependTwice(name: string, a: Json, b: Json)
    requires !a.JArr? && !b.JArr?
    ensures AddPrepend(AddPrepend(Empty, name, a), name, b) == SingleList(name, [b, a], Front)
  {
    var t1 := AddPrepend(Empty, name, a);
    assert t1 == SingleList(name, [a], Front) by {
      assert Register([], name) == [name];
      assert Contribution(a) == [a] && Entries(map[], name) == [];
      assert [a] + [] == [a];
    }
    assert Register([name], name) == [name];
    assert Contribution(b) == [b] && [b] + [a] == [b, a];
    assert map[name := [a]][name := [b] + [a]] == map[name := [b, a]];
  }

  /** Two single text values appended to fresh tables form one list. */
  lemma AppendTwice(name: string, a: Json, b: Json)
    requires !a.JArr? && !b.JArr?
    ensures AddAppend(AddAppend(Empty, name, a), name, b) == SingleList(name, [a, b], Back)
  {
    var t1 := AddAppend(Empty, name, a);
    assert t1 == SingleList(name, [a], Back) by {
      assert Register([], name) == [name];
      assert Contribution(a) == [a] && Entries(map[], name) == [];
      assert [] + [a] == [a];
    }
    assert Register([name], name) == [name];
    assert Contribution(b) == [b] && [a] + [b] == [a, b];
    assert map[name := [a]][name := [a] + [b]] == map[name := [a, b]];
  }

  /** A pass over a table holding one list converts that list and attaches
      its text to the variable. */
  lemma ListPassOne(r: Resolver, name: string, items: seq<Json>, env: Env, side: Side)
    ensures var c := ResolveItems(r, items);
      ListPass(r, map[name := items], [name], env, side)
      == PassResult(map[name := c.stored],
                    if JoinedText(c).Ok? then Ok(env[name := Attach(env, name, JoinedText(c).value, side)])
                    else Err(JoinedText(c).error))
  {
    var none: seq<string> := [];
    assert [name][1..] == none;
    var c := ResolveItems(r, items);
    assert map[name := items][name := c.stored] == map[name := c.stored];
  }

  /** Generating from a single list: the list is converted and written
      back, and its text is attached to the base value of the name. */
  lemma GenerateSingleList(name: string, items: seq<Json>, side: Side, base: Env, shell: Shell)
    ensures var c := ResolveItems(Resolver(base, shell), items);
      var g := Generate(SingleList(name, items, side), base, shell);
      && g.tables == SingleList(name, c.stored, side)
      && g.env == if JoinedText(c).Ok? then Ok(base[name := Attach(base, name, JoinedText(c).value, side)])
                  else Err(JoinedText(c).error)
  {
    var r := Resolver(base, shell);
    var c := ResolveItems(r, items);
    ListPassOne(r, name, items, base, side);
    if JoinedText(c).Ok? {
      var after := base[name := Attach(base, name, JoinedText(c).value, side)];
      assert after - {} == after;
      if side == Front {
        assert ListPass(r, map[], [], after, Back) == PassResult(map[], Ok(after));
      } else {
        assert ListPass(r, map[], [], base, Front) == PassResult(map[], Ok(base));
      }
      assert OverridePass(r, map[], [], after) == PassResult(map[], Ok(after));
    }
  }

  /** Prepending A then B to a variable whose base value is C yields
      "B:A:C" (values without the sigil need no shell). */
  lemma PrependExample(name: string, a: string, b: string, c: string, shell: Shell)
    requires Sigil !in a && Sigil !in b && c != ""
    ensures var t := AddPrepend(AddPrepend(Empty, name, JStr(a)), name, JStr(b));
      Generate(t, map[name := c], shell).env == Ok(map[name := b + ":" + a + ":" + c])
  {
    var t := AddPrepend(AddPrepend(Empty, name, JStr(a)), name, JStr(b));
    var items := [JStr(b), JStr(a)];
    PrependTwice(name, JStr(a), JStr(b));
    var base := map[name := c];
    var r := Resolver(base, shell);
    assert ListText(r, items) == Ok(b + ":" + a) by {
      ResolveItemsPlain(r, items);
      assert ResolveItems(r, items).parts.value == [b, a];
    }
    GenerateSingleList(name, items, Front, base, shell);
    var v := b + ":" + a + ":" + c;
    assert Attach(base, name, b + ":" + a, Front) == v by {
      assert [PathSep] == ":";
    }
    Rebind(name, c, v);
  }

  /** Setting the one variable of a one-variable environment. */
  lemma Rebind(name: string, old_value: string, v: string)
    ensures map[name := old_value][name := v] == map[name := v]
  {
  }

  /** A value joined after another one regroups freely. */
  lemma SeparatedAfter(c: string, text: string, a: string, b: string)
    requires text == a + ":" + b
    ensures c + [PathSep] + text == c + ":" + a + ":" + b
  {
    assert [PathSep] == ":";
  }

  /** Appending A then B to a variable whose base value is C yields "C:A:B". */
  lemma AppendExample(name: string, a: string, b: string, c: string, shell: Shell)
    requires Sigil !in a && Sigil !in b && c != ""
    ensures var t := AddAppend(AddAppend(Empty, name, JStr(a)), name, JStr(b));
      Generate(t, map[name := c], shell).env == Ok(map[name := c + ":" + a + ":" + b])
  {
    var t := AddAppend(AddAppend(Empty, name, JStr(a)), name, JStr(b));
    var items := [JStr(a), JStr(b)];
    AppendTwice(name, JStr(a), JStr(b));
    var base := map[name := c];
    var r := Resolver(base, shell);
    assert ListText(r, items) == Ok(a + ":" + b) by {
      ResolveItemsPlain(r, items);
      assert ResolveItems(r, items).parts.value == [a, b];
    }
    GenerateSingleList(name, items, Back, base, shell);
    var v := c + ":" + a + ":" + b;
    assert Attach(base, name, a + ":" + b, Back) == v by {
      SeparatedAfter(c, a + ":" + b, a, b);
    }
    Rebind(name, c, v);
  }

  /** A stored value that resolves to itself: text without the sigil. */
  predicate PlainText(j: Json)
  {
    j.JStr? && Sigil !in j.s
  }

  /** Every stored value is plain text: prepend and append lists, and
      override values that are text or lists of text. */
  ghost predicate PlainTables(t: Tables)
  {
    && (forall n, i :: n in t.prepend && 0 <= i < |t.prepend[n]| ==> PlainText(t.prepend[n][i]))
    && (forall n, i :: n in t.append && 0 <= i < |t.append[n]| ==> PlainText(t.append[n][i]))
    && (forall n :: n in t.overrides ==>
          PlainText(t.overrides[n])
          || (t.overrides[n].JArr? && forall i :: 0 <= i < |t.overrides[n].items| ==> PlainText(t.overrides[n].items[i])))
  }

  lemma {:induction false} ResolveItemsPlain(r: Resolver, items: seq<Json>)
    requires forall i :: 0 <= i < |items| ==> PlainText(items[i])
    ensures ResolveItems(r, items).parts.Ok? && ResolveItems(r, items).stored == items
    decreases |items|
  {
    if items != [] {
      ResolveItemsPlain(r, items[1..]);
      assert items == [items[0]] + items[1..];
    }
  }

  lemma {:induction false} ListPassPlain(r: Resolver, table: map<string, seq<Json>>, names: seq<string>, env: Env, side: Side)
    requires forall k :: k in names ==> k in table
    requires forall n, i :: n in table && 0 <= i < |table[n]| ==> PlainText(table[n][i])
    ensures ListPass(r, table, names, env, side).env.Ok?
    ensures ListPass(r, table, names, env, side).table == table
    decreases |names|
  {
    if names != [] {
      var name := names[0];
      ResolveItemsPlain(r, table[name]);
      var c := ResolveItems(r, table[name]);
      assert table[name := c.stored] == table;
      ListPassPlain(r, table, names[1..], env[name := Attach(env, name, JoinedText(c).value, side)], side);
    }
  }

  lemma {:induction false} OverridePassPlain(r: Resolver, table: map<string, Json>, names: seq<string>, env: Env)
    requires forall k :: k in names ==> k in table
    requires forall n :: n in table ==>
      PlainText(table[n]) || (table[n].JArr? && forall i :: 0 <= i < |table[n].items| ==> PlainText(table[n].items[i]))
    ensures OverridePass(r, table, names, env).env.Ok?
    ensures OverridePass(r, table, names, env).table == table
    decreases |names|
  {
    if names != [] {
      var name := names[0];
      if table[name].JArr? && !PlainText(table[name]) {
        ResolveItemsPlain(r, table[name].items);
      }
      var c := ConvertValue(r, table[name]);
      assert c.stored == table[name];
      assert table[name := c.stored] == table;
      OverridePassPlain(r, table, names[1..], env[name := c.text.value]);
    }
  }

  /** When every stored value is plain text, generation succeeds and writes
      nothing back, so generating again gives the same result. */
  lemma GenerateRepeatableWhenPlain(t: Tables, base: Env, shell: Shell)
    requires Valid(t) && PlainTables(t)
    ensures Generate(t, base, shell).env.Ok?
    ensures Generate(t, base, shell).tables == t
    ensures Generate(Generate(t, base, shell).tables, base, shell) == Generate(t, base, shell)
  {
    var r := Resolver(base, shell);
    ListPassPlain(r, t.prepend, t.prependNames, base, Front);
    var p := ListPass(r, t.prepend, t.prependNames, base, Front);
    ListPassPlain(r, t.append, t.appendNames, p.env.value, Back);
    var a := ListPass(r, t.append, t.appendNames, p.env.value, Back);
    OverridePassPlain(r, t.overrides, t.overrideNames, a.env.value);
  }

  /** The shell used by the counterexample below: `echo $A` prints the
      literal text `$B` (as when A is set to that text), anything else
      prints an empty line. */
  function EchoesDollarB(cmd: string, env: Env): ShellOutput
  {
    if cmd == "echo $A" then ShellOutput("$B\n", "") else ShellOutput("\n", "")
  }

  /** `generate` writes resolved values back into its own lists, so a second
      call resolves them again: with a value `$A` whose resolution is the
      text `$B`, the first call yields X=$B and the second X= (empty). */
  lemma GenerateWritesBack()
    ensures var t := AddPrepend(Empty, "X", JStr("$A"));
      var g1 := Generate(t, map[], EchoesDollarB);
      && g1.env == Ok(map["X" := "$B"])
      && g1.tables.prepend["X"] == [JStr("$B")]
      && Generate(g1.tables, map[], EchoesDollarB).env == Ok(map["X" := ""])
  {
    var empty: Env := map[];
    var r := Resolver(empty, EchoesDollarB);
    var t := AddPrepend(Empty, "X", JStr("$A"));
    assert t == SingleList("X", [JStr("$A")], Front) by {
      assert Register([], "X") == ["X"];
      assert Contribution(JStr("$A")) == [JStr("$A")] && Entries(map[], "X") == [];
      assert [JStr("$A")] + [] == [JStr("$A")];
    }
    assert ResolveItems(r, [JStr("$A")]) == Converted([JStr("$B")], Ok(["$B"])) by {
      ResolveFirstTime(r);
    }
    assert Join(["$B"], PathSep) == "$B";
    GenerateSingleList("X", [JStr("$A")], Front, empty, EchoesDollarB);
    var g1 := Generate(t, empty, EchoesDollarB);
    assert g1.tables == SingleList("X", [JStr("$B")], Front);
    assert ResolveItems(r, [JStr("$B")]) == Converted([JStr("")], Ok([""])) by {
      ResolveSecondTime(r);
    }
    assert Join([""], PathSep) == "";
    GenerateSingleList("X", [JStr("$B")], Front, empty, EchoesDollarB);
  }

  /** The first resolution: `$A` resolves to the text `$B`. */
  lemma ResolveFirstTime(r: Resolver)
    requires r == Resolver(map[], EchoesDollarB)
    ensures ResolveItems(r, [JStr("$A")]) == Converted([JStr("$B")], Ok(["$B"]))
  {
    assert "$A"[0] == Sigil;
    assert EchoCommand("$A") == "echo $A";
    assert Sigil in "$A";
    assert r.shell(EchoCommand("$A"), r.env) == ShellOutput("$B\n", "");
    assert StripTrailingNewline("$B\n") == "$B";
    assert Resolve(r, "$A") == Ok("$B");
    var none: seq<Json> := [];
    var noText: seq<string> := [];
    assert [JStr("$A")][1..] == none;
    assert ["$B"] + noText == ["$B"];
  }

  /** The second resolution: `$B` resolves to the empty text. */
  lemma ResolveSecondTime(r: Resolver)
    requires r == Resolver(map[], EchoesDollarB)
    ensures ResolveItems(r, [JStr("$B")]) == Converted([JStr("")], Ok([""]))
  {
    assert "$B"[0] == Sigil;
    assert EchoCommand("$B") == "echo $B";
    assert EchoCommand("$B") != "echo $A" by {
      assert EchoCommand("$B")[6] != "echo $A"[6];
    }
    assert Sigil in "$B";
    assert r.shell(EchoCommand("$B"), r.env) == ShellOutput("\n", "");
    assert StripTrailingNewline("\n") == "";
    assert Resolve(r, "$B") == Ok("");
    var none: seq<Json> := [];
    var noText: seq<string> := [];
    assert [JStr("$B")][1..] == none;
    assert [""] + noText == [""];
  }
}
