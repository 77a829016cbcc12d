/**
 * The variadic `options ...map[string]interface{}` bag that Copy takes on both
 * backends. A value is dynamically typed; a Copy reads one key, keeps a
 * default, and lets every map whose value at that key has the expected Go type
 * replace it, so the last such map wins and values of other types are ignored.
 */
module Options {
  import opened Wrappers

  /** A Go `interface{}` value as far as the type assertions care: a string, an int, or anything else. */
  datatype Value = Str(s: string) | Int(i: int) | Other(typeName: string)

  type OptionMap = map<string, Value>

  /** The assertion `v.(string)`. */
  function AsString(v: Value): Option<string>
  {
    if v.Str? then Some(v.s) else None
  }

  /** The assertion `v.(int)`; an `fs.FileMode` or `uint32` value is some other type and fails it. */
  function AsInt(v: Value): Option<int>
  {
    if v.Int? then Some(v.i) else None
  }

  /** True when `opt` holds a value for `key` that passes the type assertion `cast`. */
  predicate Overrides<T>(opt: OptionMap, key: string, cast: Value -> Option<T>)
  {
    key in opt && cast(opt[key]).Some?
  }

  /** The setting that scanning `options` in order leaves, starting from `dflt`. */
  function Chosen<T>(options: seq<OptionMap>, key: string, dflt: T, cast: Value -> Option<T>): T
    decreases |options|
  {
    if options == [] then dflt
    else
      var last := options[|options| - 1];
      if Overrides(last, key, cast) then cast(last[key]).value
      else Chosen(options[..|options| - 1], key, dflt, cast)
  }

  /** The options loop of Copy: reassign the setting for every map that overrides it. */
  method Choose<T>(options: seq<OptionMap>, key: string, dflt: T, cast: Value -> Option<T>) returns (r: T)
    ensures r == Chosen(options, key, dflt, cast)
  {
    r := dflt;
    for i := 0 to |options|
      invariant r == Chosen(options[..i], key, dflt, cast)
    {
      var opt := options[i];
      assert options[..i + 1][..i] == options[..i];
      if key in opt {
        var v := cast(opt[key]);
        if v.Some? {
          r := v.value;
        }
      }
    }
    assert options[..|options|] == options;
  }

  /** With no overriding map the default stays. */
  lemma {:induction false} ChosenDefault<T>(options: seq<OptionMap>, key: string, dflt: T, cast: Value -> Option<T>)
    requires forall j :: 0 <= j < |options| ==> !Overrides(options[j], key, cast)
    ensures Chosen(options, key, dflt, cast) == dflt
    decreases |options|
  {
    if options != [] {
      var init := options[..|options| - 1];
      assert forall j :: 0 <= j < |init| ==> init[j] == options[j];
      ChosenDefault(init, key, dflt, cast);
    }
  }

  /** The last overriding map decides, whatever came before it. */
  lemma {:induction false} ChosenLastWins<T>(options: seq<OptionMap>, j: nat, key: string, dflt: T, cast: Value -> Option<T>)
    requires j < |options| && Overrides(options[j], key, cast)
    requires forall k :: j < k < |options| ==> !Overrides(options[k], key, cast)
    ensures Chosen(options, key, dflt, cast) == cast(options[j][key]).value
    decreases |options|
  {
    if j < |options| - 1 {
      var init := options[..|options| - 1];
      assert forall k :: 0 <= k < |init| ==> init[k] == options[k];
      ChosenLastWins(init, j, key, dflt, cast);
    }
  }

  /** The setting is the default or the value of some overriding map. */
  lemma {:induction false} ChosenFrom<T>(options: seq<OptionMap>, key: string, dflt: T, cast: Value -> Option<T>)
    ensures var r := Chosen(options, key, dflt, cast);
      r == dflt || exists j :: 0 <= j < |options| && Overrides(options[j], key, cast) && r == cast(options[j][key]).value
    decreases |options|
  {
    if options != [] {
      var init := options[..|options| - 1];
      ChosenFrom(init, key, dflt, cast);
      assert forall k :: 0 <= k < |init| ==> init[k] == options[k];
    }
  }
}
