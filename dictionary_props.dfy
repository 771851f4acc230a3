/** Properties of the dictionary functions and updates of `Dictionaries`. */
module DictProps {
  import opened Objects
  import opened Tokens
  import opened Errors
  import opened Dictionaries

  // ---------------------------------------------------------------------
  // Full names

  /** Without a prefix the name is kept; with prefix `p` the result always
      starts with `p::`, and it is `p::name` unless `name` already starts
      with `p::`, which is then kept as it is. */
  lemma FullNameShape(name: string, prefix: Option<string>)
    ensures prefix.None? ==> FullName(name, prefix) == name
    ensures prefix.Some? ==> prefix.value + Sep <= FullName(name, prefix)
    ensures prefix.Some? && prefix.value + Sep <= name ==> FullName(name, prefix) == name
    ensures prefix.Some? && !(prefix.value + Sep <= name) ==> FullName(name, prefix) == prefix.value + Sep + name
  {
    if prefix.Some? && !(prefix.value + Sep <= name) {
      var q := prefix.value + Sep;
      assert (q + name)[..|q|] == q;
    }
  }

  /** Qualifying twice is qualifying once. */
  lemma FullNameIdempotent(name: string, prefix: Option<string>)
    ensures FullName(FullName(name, prefix), prefix) == FullName(name, prefix)
  {
    FullNameShape(name, prefix);
    FullNameShape(FullName(name, prefix), prefix);
  }

  /** For a `name` not already qualified by `m`: `m::name` with no prefix,
      `name` with prefix `m` and `m::name` with prefix `m` are the same full
      name. */
  lemma ModuleNames(m: string, name: string)
    requires !(m + Sep <= name)
    ensures FullName(m + Sep + name, None) == m + Sep + name
    ensures FullName(name, Some(m)) == FullName(m + Sep + name, Some(m)) == m + Sep + name
  {
    FullNameShape(name, Some(m));
    FullNameShape(m + Sep + name, Some(m));
    assert (m + Sep + name)[..|m + Sep|] == m + Sep;
  }

  // ---------------------------------------------------------------------
  // Lookup

  /** The dictionary and its ancestors, innermost first. */
  function Scopes(d: Dict): (sc: seq<Dict>)
    decreases d
    ensures |sc| >= 1 && sc[0] == d
  {
    match d.parent
    case None => [d]
    case Some(p) => [d] + Scopes(p)
  }

  /** The key one scope looks up for `name` under `prefix`: the full name,
      redirected by that scope's own aliases. */
  function ScopeKey(s: Dict, name: Token, prefix: Option<string>): string
  {
    var full := FullName(name.lexeme, prefix);
    if full in s.alias then s.alias[full] else full
  }

  /** Some scope of the chain has its own key among its words. */
  predicate FoundIn(sc: seq<Dict>, name: Token, prefix: Option<string>)
  {
    exists i | 0 <= i < |sc| :: ScopeKey(sc[i], name, prefix) in sc[i].words
  }

  /** The first scope of `sc` that has its own key among its words. */
  predicate FirstFound(sc: seq<Dict>, i: nat, name: Token, prefix: Option<string>)
  {
    && i < |sc|
    && (forall j | 0 <= j < i :: ScopeKey(sc[j], name, prefix) !in sc[j].words)
    && ScopeKey(sc[i], name, prefix) in sc[i].words
  }

  /** A lookup finds a word exactly when some scope of the chain has its own
      key among its words; the first such scope, innermost first, gives the
      name and the value. A miss everywhere is `UndefinedWord` on the token. */
  lemma {:induction false} LookupScopes(d: Dict, name: Token, prefix: Option<string>)
    decreases d
    ensures var sc := Scopes(d);
      var r := GetNameAndObj(d, name, prefix);
      && (r.Ok? <==> FoundIn(sc, name, prefix))
      && (r.Ok? ==> exists i: nat | FirstFound(sc, i, name, prefix) ::
            r.value == (ScopeKey(sc[i], name, prefix), sc[i].words[ScopeKey(sc[i], name, prefix)]))
      && (r.Err? ==> r.error == ExecError(UndefinedWord, name))
  {
    var sc := Scopes(d);
    var key := ScopeKey(d, name, prefix);
    if key in d.words {
      assert GetNameAndObj(d, name, prefix) == Ok((key, d.words[key]));
      assert FirstFound(sc, 0, name, prefix);
    } else if d.parent.None? {
      assert sc == [d];
      assert !FoundIn(sc, name, prefix);
    } else {
      var p := d.parent.value;
      LookupScopes(p, name, prefix);
      var ps := Scopes(p);
      assert sc == [d] + ps;
      assert GetNameAndObj(d, name, prefix) == GetNameAndObj(p, name, prefix);
      ShiftScopes(d, ps, name, prefix);
      if GetNameAndObj(p, name, prefix).Ok? {
        var i: nat :| FirstFound(ps, i, name, prefix) &&
          GetNameAndObj(p, name, prefix).value == (ScopeKey(ps[i], name, prefix), ps[i].words[ScopeKey(ps[i], name, prefix)]);
        assert FirstFound(sc, i + 1, name, prefix);
        assert sc[i + 1] == ps[i];
      }
    }
  }

  /** Putting a scope that misses in front of a chain changes neither
      whether a scope finds the key nor which one is first, but shifts it. */
  lemma ShiftScopes(d: Dict, ps: seq<Dict>, name: Token, prefix: Option<string>)
    requires ScopeKey(d, name, prefix) !in d.words
    ensures FoundIn([d] + ps, name, prefix) <==> FoundIn(ps, name, prefix)
    ensures forall i: nat :: FirstFound(ps, i, name, prefix) ==> FirstFound([d] + ps, i + 1, name, prefix)
  {
    var sc := [d] + ps;
    if FoundIn(sc, name, prefix) {
      var i :| 0 <= i < |sc| && ScopeKey(sc[i], name, prefix) in sc[i].words;
      assert i != 0 && sc[i] == ps[i - 1];
    }
    if FoundIn(ps, name, prefix) {
      var i :| 0 <= i < |ps| && ScopeKey(ps[i], name, prefix) in ps[i].words;
      assert sc[i + 1] == ps[i];
    }
    forall i: nat | FirstFound(ps, i, name, prefix)
      ensures FirstFound(sc, i + 1, name, prefix)
    {
      assert sc[i + 1] == ps[i];
      forall j | 0 <= j < i + 1
        ensures ScopeKey(sc[j], name, prefix) !in sc[j].words
      {
        if j > 0 {
          assert sc[j] == ps[j - 1];
        }
      }
    }
  }

  /** Local words shadow the parent's: when this scope has the key, the
      parent does not matter. */
  lemma LocalShadows(d: Dict, name: Token, prefix: Option<string>, other: Option<Dict>)
    requires ScopeKey(d, name, prefix) in d.words
    ensures GetNameAndObj(d.(parent := other), name, prefix) == GetNameAndObj(d, name, prefix)
    ensures GetNameAndObj(d, name, prefix) == Ok((ScopeKey(d, name, prefix), d.words[ScopeKey(d, name, prefix)]))
  {
  }

  /** On a local miss the parent is asked with the original token and
      prefix: this scope's aliases play no part there. */
  lemma MissAsksParent(d: Dict, name: Token, prefix: Option<string>)
    requires ScopeKey(d, name, prefix) !in d.words
    ensures d.parent.Some? ==> GetNameAndObj(d, name, prefix) == GetNameAndObj(d.parent.value, name, prefix)
    ensures d.parent.None? ==> GetNameAndObj(d, name, prefix) == Err(ExecError(UndefinedWord, name))
  {
  }

  /** An alias is applied once: its target is looked up as a word even if
      the target is itself an alias. */
  lemma AliasOnce(d: Dict, name: Token, prefix: Option<string>)
    requires FullName(name.lexeme, prefix) in d.alias
    requires d.alias[FullName(name.lexeme, prefix)] in d.words
    ensures var target := d.alias[FullName(name.lexeme, prefix)];
      GetNameAndObj(d, name, prefix) == Ok((target, d.words[target]))
  {
  }

  /** `m::name` with no prefix and `name` with prefix `m` find the same word
      in the same scope, for a `name` not already qualified by `m`. */
  lemma {:induction false} ModuleAccess(d: Dict, m: string, qualified: Token, bare: Token)
    requires qualified.lexeme == m + Sep + bare.lexeme && !(m + Sep <= bare.lexeme)
    decreases d
    ensures GetNameAndObj(d, qualified, None).Ok? <==> GetNameAndObj(d, bare, Some(m)).Ok?
    ensures GetNameAndObj(d, qualified, None).Ok? ==>
      GetNameAndObj(d, qualified, None).value == GetNameAndObj(d, bare, Some(m)).value
  {
    ModuleNames(m, bare.lexeme);
    assert ScopeKey(d, qualified, None) == ScopeKey(d, bare, Some(m));
    if d.parent.Some? {
      ModuleAccess(d.parent.value, m, qualified, bare);
    }
  }

  // ---------------------------------------------------------------------
  // Updates

  /** `define` changes the one key it binds and no other. */
  lemma DefineOneKey(words: map<string, Object>, name: string, prefix: Option<string>, value: Object)
    ensures var w := words[FullName(name, prefix) := value];
      && FullName(name, prefix) in w && w[FullName(name, prefix)] == value
      && (forall k | k != FullName(name, prefix) :: (k in w <==> k in words) && (k in words ==> w[k] == words[k]))
  {
  }

  /** After `define`, `get` of the same name under the same prefix finds the
      value, unless an alias redirects that full name. */
  lemma DefineThenGet(d: Dict, name: Token, prefix: Option<string>, value: Object)
    requires FullName(name.lexeme, prefix) !in d.alias
    ensures Get(d.(words := d.words[FullName(name.lexeme, prefix) := value]), name, prefix) == Ok(value)
  {
  }

  /** `extend` gives every word of `other` its value from `other` and keeps
      every other word as it was. */
  lemma ExtendWords(words: map<string, Object>, other: map<string, Object>)
    ensures var w := words + other;
      && (forall k | k in other :: k in w && w[k] == other[k])
      && (forall k | k !in other :: (k in w <==> k in words) && (k in words ==> w[k] == words[k]))
  {
  }

  // ---------------------------------------------------------------------
  // The unit tests of `lib/src/dictionary.rs`

  /** Defining `name` as 100 with no prefix and getting it back. */
  lemma DefineValueExample(t: Token)
    requires t.lexeme == "name"
    ensures Get(Dict(map["name" := Object.Number(100)], map[], None), t, None) == Ok(Object.Number(100))
  {
  }

  /** A word defined under `module` is found as `module::name` with no
      prefix and as `name` with prefix `module`. */
  lemma ModuleExample(qualified: Token, bare: Token)
    requires qualified.lexeme == "module::name" && bare.lexeme == "name"
    ensures var d := Dict(map[FullName("name", Some("module")) := Object.Number(100)], map[], None);
      Get(d, qualified, None) == Ok(Object.Number(100)) && Get(d, bare, Some("module")) == Ok(Object.Number(100))
  {
    ModuleNames("module", "name");
    assert "module" + Sep + "name" == "module::name";
  }

  /** A word of the parent is found from an empty child. */
  lemma ParentExample(t: Token)
    requires t.lexeme == "name"
    ensures Get(Dict(map[], map[], Some(Dict(map["name" := Object.Number(100)], map[], None))), t, None) == Ok(Object.Number(100))
  {
  }

  /** An empty root dictionary has no words. */
  lemma UndefinedExample(t: Token)
    ensures Get(Dict(map[], map[], None), t, None) == Err(ExecError(UndefinedWord, t))
  {
  }
}
