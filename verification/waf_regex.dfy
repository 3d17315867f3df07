/**
 * The regular-expression condition of the WAF rules engine. The condition
 * holds a list of input names; it looks them up in the request data (under
 * a transformed key when a transformation is given) and, at the first one
 * present, runs the pattern over the whole data tree.
 *
 * The compiled pattern together with the depth-first visitor is the
 * parameter `search`, and the transformed-key builder is `transformKey`.
 */
module WafRegex {
  import opened Wrappers

  /** The key under which an input is looked up. */
  function LookupKey(input: string, transform: Option<string>, transformKey: (string, string) -> string): string {
    match transform
    case None => input
    case Some(t) => transformKey(t, input)
  }

  /** The index of the first input whose lookup key is present in the data. */
  function FirstPresent<V>(inputs: seq<string>, data: map<string, V>, transform: Option<string>,
                           transformKey: (string, string) -> string): (r: Option<nat>)
    ensures r.Some? ==> r.value < |inputs| && LookupKey(inputs[r.value], transform, transformKey) in data
    ensures r.Some? ==> forall j :: 0 <= j < r.value ==> LookupKey(inputs[j], transform, transformKey) !in data
    ensures r.None? ==> forall j :: 0 <= j < |inputs| ==> LookupKey(inputs[j], transform, transformKey) !in data
  {
    if |inputs| == 0 then None
    else if LookupKey(inputs[0], transform, transformKey) in data then Some(0)
    else match FirstPresent(inputs[1..], data, transform, transformKey)
      case None => None
      case Some(i) => Some(i + 1)
  }

  /** `IsMatchInternal`: the search over the data, if some input is present. */
  method IsMatchInternal<V>(inputs: seq<string>, data: map<string, V>, transform: Option<string>,
                            transformKey: (string, string) -> string, search: map<string, V> -> bool)
    returns (matched: bool)
    ensures matched <==> (exists i :: 0 <= i < |inputs| && LookupKey(inputs[i], transform, transformKey) in data) && search(data)
    ensures matched <==> FirstPresent(inputs, data, transform, transformKey).Some? && search(data)
  {
    var i := 0;
    while i < |inputs|
      invariant 0 <= i <= |inputs|
      invariant forall j :: 0 <= j < i ==> LookupKey(inputs[j], transform, transformKey) !in data
    {
      var key := LookupKey(inputs[i], transform, transformKey);
      if key in data {
        return search(data);
      }
      i := i + 1;
    }
    return false;
  }

  /** `IsMatch`: the inputs are looked up under their own names. */
  method IsMatch<V>(inputs: seq<string>, data: map<string, V>, search: map<string, V> -> bool)
    returns (matched: bool)
    ensures matched <==> (exists i :: 0 <= i < |inputs| && inputs[i] in data) && search(data)
  {
    // without a transformation the key function is never applied
    matched := IsMatchInternal(inputs, data, None, (transformation: string, name: string) => name, search);
  }

  /** `IsTransformedMatch`: the inputs are looked up under their transformed keys. */
  method IsTransformedMatch<V>(inputs: seq<string>, data: map<string, V>, transformation: string,
                               transformKey: (string, string) -> string, search: map<string, V> -> bool)
    returns (matched: bool)
    ensures matched <==> (exists i :: 0 <= i < |inputs| && transformKey(transformation, inputs[i]) in data) && search(data)
  {
    matched := IsMatchInternal(inputs, data, Some(transformation), transformKey, search);
  }

  /**
   * Inputs after the first present one are never consulted: appending any
   * inputs to a list that already has a present input changes nothing.
   */
  lemma {:induction false} LaterInputsIgnored<V>(inputs: seq<string>, more: seq<string>, data: map<string, V>,
                                                 transform: Option<string>, transformKey: (string, string) -> string)
    requires FirstPresent(inputs, data, transform, transformKey).Some?
    ensures FirstPresent(inputs + more, data, transform, transformKey) == FirstPresent(inputs, data, transform, transformKey)
  {
    assert (inputs + more)[0] == inputs[0];
    if LookupKey(inputs[0], transform, transformKey) !in data {
      assert (inputs + more)[1..] == inputs[1..] + more;
      LaterInputsIgnored(inputs[1..], more, data, transform, transformKey);
    }
  }
}
