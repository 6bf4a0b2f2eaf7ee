/** The environment modifier object of EnvModifier.py: four tables that the
    builder methods update in place, and `generate`, which resolves every
    stored value and writes resolved lists back into the tables. Each method
    is proved against the value-level definitions of EnvTables. */
module EnvModifier {
  import opened Common
  import opened ResourceResolver
  import opened EnvTables

  /** The stored form of already resolved elements. */
  function Texts(done: seq<string>): (s: seq<Json>)
    ensures |s| == |done|
    ensures forall k :: 0 <= k < |done| ==> s[k] == JStr(done[k])
  {
    seq(|done|, k requires 0 <= k < |done| => JStr(done[k]))
  }

  /** The conversion of a whole list, seen from a point where the elements
      before it resolved to `done` and the remaining ones convert to `c`. */
  function Resumed(done: seq<string>, c: Converted): Converted
  {
    Converted(Texts(done) + c.stored, if c.parts.Ok? then Ok(done + c.parts.value) else c.parts)
  }

  /** One successful element moves from the remaining list to `done`. */
  lemma ResumedStep(r: Resolver, items: seq<Json>, i: int, done: seq<string>, s: string)
    requires 0 <= i < |items|
    requires ResolveElement(r, items[i]) == Ok(s)
    ensures Resumed(done, ResolveItems(r, items[i..])) == Resumed(done + [s], ResolveItems(r, items[i + 1..]))
  {
    assert items[i..][0] == items[i];
    assert items[i..][1..] == items[i + 1..];
    var rest := ResolveItems(r, items[i + 1..]);
    assert Texts(done) + ([JStr(s)] + rest.stored) == Texts(done + [s]) + rest.stored;
    if rest.parts.Ok? {
      assert done + ([s] + rest.parts.value) == (done + [s]) + rest.parts.value;
    }
  }

  /** Nothing resolved yet: the conversion is the remaining one. */
  lemma ResumedNothing(c: Converted)
    ensures Resumed([], c) == c
  {
    assert Texts([]) + c.stored == c.stored;
    if c.parts.Ok? {
      var none: seq<string> := [];
      assert none + c.parts.value == c.parts.value;
    }
  }

  /** Overwriting the next element with its resolved text. */
  lemma StoreResolved(done: seq<string>, items: seq<Json>, s: string)
    requires |done| < |items|
    ensures (Texts(done) + items[|done|..])[|done| := JStr(s)] == Texts(done + [s]) + items[|done| + 1..]
  {
  }

  /** One step of the override pass, for the first remaining name. */
  lemma OverridePassStep(r: Resolver, table: map<string, Json>, names: seq<string>, i: int, env: Env)
    requires 0 <= i < |names|
    requires forall n :: n in names ==> n in table
    ensures var name := names[i];
      var c := ConvertValue(r, table[name]);
      OverridePass(r, table, names[i..], env)
        == if c.text.Err? then PassResult(table[name := c.stored], Err(c.text.error))
           else OverridePass(r, table[name := c.stored], names[i + 1..], env[name := c.text.value])
  {
    assert names[i..][0] == names[i] && names[i..][1..] == names[i + 1..];
  }

  class EnvModifier {
    /** A copy of the environment the modifier starts from; values are
        resolved against it and `generate` starts from it. */
    const baseEnv: Env
    var prependNames: seq<string>
    var prepend: map<string, seq<Json>>
    var appendNames: seq<string>
    var append: map<string, seq<Json>>
    var overrideNames: seq<string>
    var overrides: map<string, Json>
    var unset: set<string>

    /** The four tables as a value. */
    function Model(): Tables
      reads this
    {
      Tables(prependNames, prepend, appendNames, append, overrideNames, overrides, unset)
    }

    ghost predicate Valid()
      reads this
    {
      EnvTables.Valid(Model())
    }

    constructor (baseEnv: Env)
      ensures this.baseEnv == baseEnv
      ensures Model() == Empty && Valid()
    {
      this.baseEnv := baseEnv;
      prependNames, prepend := [], map[];
      appendNames, append := [], map[];
      overrideNames, overrides := [], map[];
      unset := {};
    }

    /** `addPrependVar`: a list goes in front of the stored list as a
        whole, a single value goes in front on its own. */
    method AddPrependVar(name: string, value: Json)
      requires Valid()
      modifies this
      ensures Valid()
      ensures Model() == AddPrepend(old(Model()), name, value)
    {
      ghost var t := Model();
      var stored := if name in prepend then prepend[name] else [];
      if name !in prepend {
        prependNames := prependNames + [name];
      }
      prepend := prepend[name := Contribution(value) + stored];
      assert Model() == AddPrepend(t, name, value);
    }

    /** `prependVar`. */
    function PrependVar(name: string): (r: Result<seq<Json>>)
      reads this
      ensures r.Ok? <==> name in prepend
      ensures r.Ok? ==> r.value == prepend[name]
      ensures r.Err? ==> r.error == InvalidVarError(name)
    {
      if name in prepend then Ok(prepend[name]) else Err(InvalidVarError(name))
    }

    /** `prependVarNames`: every prepended name once, in insertion order. */
    function PrependVarNames(): (names: seq<string>)
      reads this
      ensures Valid() ==> Distinct(names) && forall n :: n in names <==> PrependVar(n).Ok?
    {
      prependNames
    }

    /** `addAppendVar`: a list goes after the stored list in its own order,
        a single value goes last. */
    method AddAppendVar(name: string, value: Json)
      requires Valid()
      modifies this
      ensures Valid()
      ensures Model() == AddAppend(old(Model()), name, value)
    {
      ghost var t := Model();
      var stored := if name in append then append[name] else [];
      if name !in append {
        appendNames := appendNames + [name];
      }
      append := append[name := stored + Contribution(value)];
      assert Model() == AddAppend(t, name, value);
    }

    /** `appendVar`. */
    function AppendVar(name: string): (r: Result<seq<Json>>)
      reads this
      ensures r.Ok? <==> name in append
      ensures r.Ok? ==> r.value == append[name]
      ensures r.Err? ==> r.error == InvalidVarError(name)
    {
      if name in append then Ok(append[name]) else Err(InvalidVarError(name))
    }

    /** `appendVarNames`. */
    function AppendVarNames(): (names: seq<string>)
      reads this
      ensures Valid() ==> Distinct(names) && forall n :: n in names <==> AppendVar(n).Ok?
    {
      appendNames
    }

    /** `setOverrideVar`: the value replaces any earlier one. */
    method SetOverrideVar(name: string, value: Json)
      requires Valid()
      modifies this
      ensures Valid()
      ensures Model() == SetOverride(old(Model()), name, value)
    {
      ghost var t := Model();
      if name !in overrides {
        overrideNames := overrideNames + [name];
      }
      overrides := overrides[name := value];
      assert Model() == SetOverride(t, name, value);
    }

    /** `overrideVar`. */
    function OverrideVar(name: string): (r: Result<Json>)
      reads this
      ensures r.Ok? <==> name in overrides
      ensures r.Ok? ==> r.value == overrides[name]
      ensures r.Err? ==> r.error == InvalidVarError(name)
    {
      if name in overrides then Ok(overrides[name]) else Err(InvalidVarError(name))
    }

    /** `overrideVarNames`. */
    function OverrideVarNames(): (names: seq<string>)
      reads this
      ensures Valid() ==> Distinct(names) && forall n :: n in names <==> OverrideVar(n).Ok?
    {
      overrideNames
    }

    /** `addUnsetVar`. */
    method AddUnsetVar(name: string)
      requires Valid()
      modifies this
      ensures Valid()
      ensures Model() == AddUnset(old(Model()), name)
    {
      unset := unset + {name};
    }

    /** `unsetVarNames`: the source returns the set as a list in no
        particular order; the model returns the set. */
    function UnsetVarNames(): (names: set<string>)
      reads this
      ensures forall n :: n in names <==> n in Model().unset
    {
      unset
    }

    /** `addFromEnvModifier`: the other modifier's prepend lists, append
        lists, overrides and unset names are added through the builders, in
        that order; its base environment is not copied. Merging a modifier
        into itself is covered too: each of its entries is read before it is
        rewritten, so the loops work from a snapshot of its tables. */
    method AddFromEnvModifier(other: EnvModifier)
      requires Valid() && other.Valid()
      modifies this
      ensures Valid()
      ensures Model() == Merge(old(Model()), old(other.Model()))
    {
      var o := other.Model();
      PrependEach(o.prepend, o.prependNames);
      AppendEach(o.append, o.appendNames);
      OverrideEach(o.overrides, o.overrideNames);
      UnsetEach(o.unset);
    }

    /** The prepend loop of `addFromEnvModifier`, over a snapshot of the
        other modifier's prepend table. */
    method PrependEach(m: map<string, seq<Json>>, names: seq<string>)
      requires Valid() && forall n :: n in names ==> n in m
      modifies this
      ensures Valid()
      ensures Model() == MergePrepend(old(Model()), m, names)
    {
      ghost var t0 := Model();
      for i := 0 to |names|
        invariant Valid()
        invariant MergePrepend(Model(), m, names[i..]) == MergePrepend(t0, m, names)
      {
        assert names[i..][1..] == names[i + 1..];
        AddPrependVar(names[i], JArr(m[names[i]]));
      }
    }

    /** The append loop of `addFromEnvModifier`. */
    method AppendEach(m: map<string, seq<Json>>, names: seq<string>)
      requires Valid() && forall n :: n in names ==> n in m
      modifies this
      ensures Valid()
      ensures Model() == MergeAppend(old(Model()), m, names)
    {
      ghost var t0 := Model();
      for i := 0 to |names|
        invariant Valid()
        invariant MergeAppend(Model(), m, names[i..]) == MergeAppend(t0, m, names)
      {
        assert names[i..][1..] == names[i + 1..];
        AddAppendVar(names[i], JArr(m[names[i]]));
      }
    }

    /** The override loop of `addFromEnvModifier`. */
    method OverrideEach(m: map<string, Json>, names: seq<string>)
      requires Valid() && forall n :: n in names ==> n in m
      modifies this
      ensures Valid()
      ensures Model() == MergeOverride(old(Model()), m, names)
    {
      ghost var t0 := Model();
      for i := 0 to |names|
        invariant Valid()
        invariant MergeOverride(Model(), m, names[i..]) == MergeOverride(t0, m, names)
      {
        assert names[i..][1..] == names[i + 1..];
        SetOverrideVar(names[i], m[names[i]]);
      }
    }

    /** The unset loop of `addFromEnvModifier`. */
    method UnsetEach(names: set<string>)
      requires Valid()
      modifies this
      ensures Valid()
      ensures Model() == old(Model()).(unset := old(unset) + names)
    {
      ghost var t0 := Model();
      var rest := names;
      while rest != {}
        invariant Valid()
        invariant Model() == t0.(unset := unset)
        invariant unset + rest == t0.unset + names
        decreases rest
      {
        var name :| name in rest;
        AddUnsetVar(name);
        rest := rest - {name};
      }
    }

    /** The index loop of `__convertEnvValue` over a list: each element is
        resolved and overwritten in place; the first failure stops the loop
        and leaves the remaining elements as they were. */
    method ResolveList(r: Resolver, items: seq<Json>) returns (c: Converted)
      ensures c == ResolveItems(r, items)
    {
      var stored := items;
      var done: seq<string> := [];
      ResumedNothing(ResolveItems(r, items));
      assert items[0..] == items;
      var i := 0;
      while i < |items|
        invariant 0 <= i <= |items| && |done| == i
        invariant stored == Texts(done) + items[i..]
        invariant Resumed(done, ResolveItems(r, items[i..])) == ResolveItems(r, items)
      {
        assert stored[i] == items[i];
        var element := ResolveElement(r, stored[i]);
        if element.Err? {
          assert items[i..][0] == items[i];
          return Converted(stored, Err(element.error));
        }
        ResumedStep(r, items, i, done, element.value);
        StoreResolved(done, items, element.value);
        stored := stored[i := JStr(element.value)];
        done := done + [element.value];
        i := i + 1;
      }
      var noItems: seq<Json> := [];
      var noText: seq<string> := [];
      assert items[i..] == noItems;
      assert Texts(done) + noItems == Texts(done) && done + noText == done;
      assert stored == Texts(done);
      return Converted(stored, Ok(done));
    }

    /** `__convertEnvValue`: a string is resolved on its own; a list is
        resolved in place and joined with the separator; anything else is
        rejected. Returns the value as it is to be stored back, and the text. */
    method ConvertEnvValue(r: Resolver, value: Json) returns (c: ConvertedValue)
      ensures c == ConvertValue(r, value)
    {
      match value
      case JStr(s) =>
        c := ConvertedValue(value, Resolve(r, s));
      case JArr(items) =>
        var converted := ResolveList(r, items);
        c := ConvertedValue(JArr(converted.stored), JoinedText(converted));
      case _ =>
        c := ConvertedValue(value, Err(InvalidVarValueError));
    }

    /** `__modifyPrependVars`. The lists are rewritten in a local copy of
        the table that is stored back on every exit, which leaves the same
        state as rewriting them in place. */
    method ModifyPrependVars(r: Resolver, env: Env) returns (result: Result<Env>)
      requires Valid()
      modifies this
      ensures Valid()
      ensures var t := old(Model());
        var p := ListPass(r, t.prepend, t.prependNames, env, Front);
        Model() == t.(prepend := p.table) && result == p.env
    {
      var table := prepend;
      var p;
      p, result := ListVars(r, table, prependNames, env, Front);
      prepend := p;
    }

    /** `__modifyAppendVars`. */
    method ModifyAppendVars(r: Resolver, env: Env) returns (result: Result<Env>)
      requires Valid()
      modifies this
      ensures Valid()
      ensures var t := old(Model());
        var p := ListPass(r, t.append, t.appendNames, env, Back);
        Model() == t.(append := p.table) && result == p.env
    {
      var table := append;
      var p;
      p, result := ListVars(r, table, appendNames, env, Back);
      append := p;
    }

    /** The loop shared by the prepend and append passes: each named list is
        resolved in place and its text joined to the variable's current
        value, at the front or at the back. */
    method ListVars(r: Resolver, table: map<string, seq<Json>>, names: seq<string>, env: Env, side: Side)
      returns (table': map<string, seq<Json>>, result: Result<Env>)
      requires forall n :: n in names ==> n in table
      ensures ListPass(r, table, names, env, side) == PassResult(table', result)
    {
      table' := table;
      var cur := env;
      var i := 0;
      assert names[0..] == names;
      while i < |names|
        invariant 0 <= i <= |names|
        invariant table'.Keys == table.Keys
        invariant ListPass(r, table', names[i..], cur, side) == ListPass(r, table, names, env, side)
      {
        var name := names[i];
        assert names[i..][0] == name && names[i..][1..] == names[i + 1..];
        var converted := ResolveList(r, table'[name]);
        table' := table'[name := converted.stored];
        var text := JoinedText(converted);
        if text.Err? {
          return table', Err(text.error);
        }
        cur := cur[name := Attach(cur, name, text.value, side)];
        i := i + 1;
      }
      return table', Ok(cur);
    }

    /** `__modifyOverrideVars`. */
    method ModifyOverrideVars(r: Resolver, env: Env) returns (result: Result<Env>)
      requires Valid()
      modifies this
      ensures Valid()
      ensures var t := old(Model());
        var p := OverridePass(r, t.overrides, t.overrideNames, env);
        Model() == t.(overrides := p.table) && result == p.env
    {
      var table := overrides;
      var p;
      p, result := OverrideVars(r, table, overrideNames, env);
      overrides := p;
    }

    /** The loop of `__modifyOverrideVars`: each value is converted (a list
        is rewritten in place) and replaces the variable. */
    method OverrideVars(r: Resolver, table: map<string, Json>, names: seq<string>, env: Env)
      returns (table': map<string, Json>, result: Result<Env>)
      requires forall n :: n in names ==> n in table
      ensures OverridePass(r, table, names, env) == PassResult(table', result)
    {
      table' := table;
      var cur := env;
      var i := 0;
      assert names[0..] == names;
      while i < |names|
        invariant 0 <= i <= |names|
        invariant table'.Keys == table.Keys
        invariant OverridePass(r, table', names[i..], cur) == OverridePass(r, table, names, env)
      {
        var name := names[i];
        OverridePassStep(r, table', names, i, cur);
        var converted := ConvertEnvValue(r, table'[name]);
        table' := table'[name := converted.stored];
        if converted.text.Err? {
          return table', Err(converted.text.error);
        }
        cur := cur[name := converted.text.value];
        i := i + 1;
      }
      return table', Ok(cur);
    }

    /** `__modifyUnsetVars`: every unset name that is set is removed. */
    method ModifyUnsetVars(env: Env) returns (result: Env)
      ensures result == env - unset
    {
      result := env;
      var rest := unset;
      while rest != {}
        invariant rest <= unset
        invariant result == env - (unset - rest)
        decreases rest
      {
        var name :| name in rest;
        if name in result {
          result := result - {name};
        }
        rest := rest - {name};
        assert result == env - (unset - rest);
      }
    }

    /** `generate`: starting from a copy of the base environment, the
        prepend, append, override and unset passes run in that order, each
        value resolved against the base environment. Resolved lists are
        written back into the tables, also when a later value fails. */
    method Generate(shell: Shell) returns (result: Result<Env>)
      requires Valid()
      modifies this
      ensures Valid()
      ensures var g := EnvTables.Generate(old(Model()), baseEnv, shell);
        Model() == g.tables && result == g.env
    {
      var r := Resolver(baseEnv, shell);
      result := ModifyPrependVars(r, baseEnv);
      if result.Err? {
        return;
      }
      result := ModifyAppendVars(r, result.value);
      if result.Err? {
        return;
      }
      result := ModifyOverrideVars(r, result.value);
      if result.Err? {
        return;
      }
      var env := ModifyUnsetVars(result.value);
      result := Ok(env);
    }
  }
}
