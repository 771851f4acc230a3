/** The scoped symbol table of `lib/src/dictionary.rs`. A dictionary owns
    its words, its aliases and (boxed) its parent scope. Lookups are
    functions of a dictionary's value; `define`, `alias` and `extend`
    update the maps of a `Dictionary` object in place. */
module Dictionaries {
  import opened Objects
  import opened Tokens
  import opened Errors

  /** The value of a dictionary: the parent is owned, so it is a value too. */
  datatype Dict = Dict(words: map<string, Object>, alias: map<string, string>, parent: Option<Dict>)

  /** The separator between a module prefix and a name. */
  const Sep: string := "::"

  /** `get_full_name`: `name` qualified by `prefix`, unless it already is. */
  function FullName(name: string, prefix: Option<string>): (r: string)
  {
    match prefix
    case None => name
    case Some(p) => if p + Sep <= name then name else p + Sep + name
  }

  /** `get_name_and_obj`: the full name of `name` under `prefix`, redirected
      once by this dictionary's aliases, looked up in its words; a miss
      asks the parent with the original token and prefix, and a miss at the
      root is `UndefinedWord` on the token. */
  function GetNameAndObj(d: Dict, name: Token, prefix: Option<string>): Result<(string, Object), ExecError>
    decreases d
  {
    var full := FullName(name.lexeme, prefix);
    var key := if full in d.alias then d.alias[full] else full;
    if key !in d.words then
      match d.parent
      case Some(p) => GetNameAndObj(p, name, prefix)
      case None => Err(ExecError(UndefinedWord, name))
    else Ok((key, d.words[key]))
  }

  /** `get`: the value `get_name_and_obj` finds. */
  function Get(d: Dict, name: Token, prefix: Option<string>): (r: Result<Object, ExecError>)
    ensures r.Ok? <==> GetNameAndObj(d, name, prefix).Ok?
    ensures r.Ok? ==> r.value == GetNameAndObj(d, name, prefix).value.1
    ensures r.Err? ==> r.error == GetNameAndObj(d, name, prefix).error
  {
    match GetNameAndObj(d, name, prefix)
    case Ok(found) => Ok(found.1)
    case Err(e) => Err(e)
  }

  class Dictionary {
    var words: map<string, Object>
    var alias: map<string, string>
    const parent: Option<Dict>

    /** `Dictionary::new`: an empty root scope. */
    constructor New()
      ensures words == map[] && alias == map[] && parent == None
    {
      words := map[];
      alias := map[];
      parent := None;
    }

    /** `Dictionary::with`: an empty scope inside `parent`. */
    constructor With(parent: Option<Dict>)
      ensures words == map[] && alias == map[] && this.parent == parent
    {
      words := map[];
      alias := map[];
      this.parent := parent;
    }

    /** The current value of this dictionary. */
    function Value(): Dict
      reads this
    {
      Dict(words, alias, parent)
    }

    /** `extend`: every word of `other` is copied in, replacing a word of
        the same name; aliases stay as they were. */
    method Extend(other: Dictionary)
      modifies this
      ensures words == old(words) + old(other.words)
      ensures alias == old(alias)
    {
      words := words + other.words;
    }

    /** `define`: binds the full name of `name` under `prefix` to `value`. */
    method Define(name: string, prefix: Option<string>, value: Object)
      modifies this
      ensures words == old(words)[FullName(name, prefix) := value]
      ensures alias == old(alias)
    {
      var fullName := FullName(name, prefix);
      words := words[fullName := value];
    }

    /** `alias`: the raw `name` stands for its full name under `prefix`. */
    method Alias(name: string, prefix: Option<string>)
      modifies this
      ensures alias == old(alias)[name := FullName(name, prefix)]
      ensures words == old(words)
    {
      var fullName := FullName(name, prefix);
      alias := alias[name := fullName];
    }

    /** `get_any`: the value under the first prefix of `valid` that finds
        one; `UndefinedWord` on the token only when all of them miss. */
    method GetAny(name: Token, valid: seq<Option<string>>) returns (r: Result<Object, ExecError>)
      ensures r.Ok? <==> exists i | 0 <= i < |valid| :: Get(Value(), name, valid[i]).Ok?
      ensures r.Ok? ==> exists i | 0 <= i < |valid| ::
        && (forall j | 0 <= j < i :: Get(Value(), name, valid[j]).Err?)
        && Get(Value(), name, valid[i]) == r
      ensures r.Err? ==> r.error == ExecError(UndefinedWord, name)
    {
      for i := 0 to |valid|
        invariant forall j | 0 <= j < i :: Get(Value(), name, valid[j]).Err?
      {
        var found := Get(Value(), name, valid[i]);
        if found.Ok? {
          return found;
        }
      }
      return Err(ExecError(UndefinedWord, name));
    }

    /** `resolve_full_name`: the full name (after aliasing) under the first
        prefix of `valid` whose lookup succeeds; when none does, the full
        name of the lexeme under `default`. It never fails. */
    method ResolveFullName(name: Token, valid: seq<Option<string>>, default: Option<string>) returns (r: string)
      ensures (forall i | 0 <= i < |valid| :: GetNameAndObj(Value(), name, valid[i]).Err?) ==>
        r == FullName(name.lexeme, default)
      ensures (exists i | 0 <= i < |valid| :: GetNameAndObj(Value(), name, valid[i]).Ok?) ==>
        exists i | 0 <= i < |valid| ::
          && (forall j | 0 <= j < i :: GetNameAndObj(Value(), name, valid[j]).Err?)
          && GetNameAndObj(Value(), name, valid[i]).Ok? && GetNameAndObj(Value(), name, valid[i]).value.0 == r
    {
      for i := 0 to |valid|
        invariant forall j | 0 <= j < i :: GetNameAndObj(Value(), name, valid[j]).Err?
      {
        var found := GetNameAndObj(Value(), name, valid[i]);
        if found.Ok? {
          return found.value.0;
        }
      }
      return FullName(name.lexeme, default);
    }
  }
}
