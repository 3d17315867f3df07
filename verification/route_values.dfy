/**
 * The conversion of ASP.NET route data into plain dictionaries for the
 * security rules: every route value becomes its string form (null stays
 * null), except a list of nested route data, which becomes a list of the
 * nested dictionaries converted the same way.
 *
 * `ToString` of an arbitrary route value is not part of this model and is
 * the parameter `toString`.
 */
module RouteValues {

  /** A route value: null, a list of nested route data, or any other object. */
  datatype RouteValue<O> = NullValue | RouteDataList(routes: seq<RouteData<O>>) | Plain(obj: O)

  /** The route data's value dictionary. */
  datatype RouteData<O> = RouteData(values: map<string, RouteValue<O>>)

  /**
   * A converted value, an `object` in the source: a string (or null), a
   * converted dictionary, or a list of converted values.
   */
  datatype Converted = NullString | Text(s: string) | Dictionary(entries: map<string, Converted>) | List(items: seq<Converted>)

  /** `ConvertRouteValueDictionary`: the same keys, each value converted. */
  function ConvertDictionary<O>(data: RouteData<O>, toString: O -> string): (r: map<string, Converted>)
    ensures r.Keys == data.values.Keys
    ensures forall k :: k in data.values && data.values[k].NullValue? ==> r[k] == NullString
    ensures forall k :: k in data.values && data.values[k].Plain? ==> r[k] == Text(toString(data.values[k].obj))
    ensures forall k :: k in data.values && data.values[k].RouteDataList? ==>
              r[k].List? && |r[k].items| == |data.values[k].routes|
    decreases data, 1
  {
    map k | k in data.values :: ConvertValue(data.values[k], toString)
  }

  /** One value of the dictionary. */
  function ConvertValue<O>(v: RouteValue<O>, toString: O -> string): (r: Converted)
    ensures v.NullValue? <==> r.NullString?
    ensures v.Plain? <==> r.Text?
    ensures v.RouteDataList? ==> r == List(ConvertList(v.routes, toString))
    decreases v, 0
  {
    match v
    case NullValue => NullString
    case Plain(obj) => Text(toString(obj))
    case RouteDataList(routes) => List(ConvertList(routes, toString))
  }

  /** `ConvertRouteValueList`: each nested route data converted, in order. */
  function ConvertList<O>(routes: seq<RouteData<O>>, toString: O -> string): (r: seq<Converted>)
    ensures |r| == |routes|
    ensures forall i :: 0 <= i < |routes| ==> r[i] == Dictionary(ConvertDictionary(routes[i], toString))
    decreases routes, 2
  {
    seq(|routes|, i requires 0 <= i < |routes| => Dictionary(ConvertDictionary(routes[i], toString)))
  }

  /**
   * The shape of a converted tree: strings and nulls, and lists whose items
   * are dictionaries of converted trees.
   */
  predicate Shaped(c: Converted)
    decreases c, 1
  {
    match c
    case NullString => true
    case Text(_) => true
    case Dictionary(_) => false
    case List(items) => forall i :: 0 <= i < |items| ==> ShapedItem(items[i])
  }

  predicate ShapedItem(c: Converted)
    decreases c, 0
  {
    c.Dictionary? && forall k :: k in c.entries ==> Shaped(c.entries[k])
  }

  /** Every conversion result has that shape. */
  lemma {:induction false} ConvertIsShaped<O>(v: RouteValue<O>, toString: O -> string)
    ensures Shaped(ConvertValue(v, toString))
    decreases v, 0
  {
    match v
    case NullValue =>
    case Plain(_) =>
    case RouteDataList(routes) =>
      var items := ConvertList(routes, toString);
      forall i | 0 <= i < |items|
        ensures ShapedItem(items[i])
      {
        ConvertDictionaryIsShaped(routes[i], toString);
      }
  }

  lemma {:induction false} ConvertDictionaryIsShaped<O>(data: RouteData<O>, toString: O -> string)
    ensures ShapedItem(Dictionary(ConvertDictionary(data, toString)))
    decreases data, 1
  {
    var r := ConvertDictionary(data, toString);
    forall k | k in r
      ensures Shaped(r[k])
    {
      ConvertIsShaped(data.values[k], toString);
    }
  }

  /** The way back: a converted tree read as route data whose plain values are strings. */
  function LiftValue(c: Converted): RouteValue<string>
    decreases c, 1
  {
    match c
    case NullString => NullValue
    case Text(s) => Plain(s)
    case Dictionary(_) => NullValue
    case List(items) => RouteDataList(seq(|items|, i requires 0 <= i < |items| => LiftItem(items[i])))
  }

  function LiftItem(c: Converted): RouteData<string>
    decreases c, 0
  {
    match c
    case Dictionary(entries) => RouteData(map k | k in entries :: LiftValue(entries[k]))
    case _ => RouteData(map[])
  }

  function Identity(s: string): string {
    s
  }

  /**
   * Converting loses nothing but the objects' identities: a tree of that
   * shape, read back as route data with strings as values and converted
   * again, is the same tree.
   */
  lemma {:induction false} ConvertLiftRoundTrip(c: Converted)
    requires Shaped(c)
    ensures ConvertValue(LiftValue(c), Identity) == c
    decreases c, 1
  {
    match c
    case NullString =>
    case Text(s) =>
    case List(items) =>
      var lifted := seq(|items|, i requires 0 <= i < |items| => LiftItem(items[i]));
      forall i | 0 <= i < |items|
        ensures Dictionary(ConvertDictionary(lifted[i], Identity)) == items[i]
      {
        ConvertLiftItemRoundTrip(items[i]);
      }
      assert ConvertList(lifted, Identity) == items;
  }

  lemma {:induction false} ConvertLiftItemRoundTrip(c: Converted)
    requires ShapedItem(c)
    ensures Dictionary(ConvertDictionary(LiftItem(c), Identity)) == c
    decreases c, 0
  {
    var r := ConvertDictionary(LiftItem(c), Identity);
    forall k | k in c.entries
      ensures r[k] == c.entries[k]
    {
      ConvertLiftRoundTrip(c.entries[k]);
    }
  }
}
