/**
 * The generated tag list of ASP.NET spans: four tags of its own (route,
 * controller, action, area) in front of the tags of its base list. Reading,
 * setting and serialising any other key is left to the base list, which is
 * not part of this model and is a parameter.
 *
 * Both serialisers are modelled by what they write: the binary one by the
 * (key, value) pairs it hands to the MessagePack writer and the count it
 * returns, the text one by the characters it appends.
 */
module AspNetTags {
  import opened Wrappers

  const RouteKey := "aspnet.route"
  const ControllerKey := "aspnet.controller"
  const ActionKey := "aspnet.action"
  const AreaKey := "aspnet.area"

  predicate IsOwnKey(key: string) {
    key == RouteKey || key == ControllerKey || key == ActionKey || key == AreaKey
  }

  /** The four own tags, each possibly unset, and the state of the base list. */
  datatype Tags<B> = Tags(route: Option<string>, controller: Option<string>,
                          action: Option<string>, area: Option<string>, base: B)

  /**
   * The base list: its lookup, its update, the pairs its binary writer
   * emits together with the count it returns, and its text form.
   */
  datatype BaseTags<!B> = BaseTags(
    get: (B, string) -> Option<string>,
    update: (B, string, string) -> B,
    write: B -> (nat, seq<(string, string)>),
    text: B -> string)

  /** `GetTag`. */
  function GetTag<B>(baseTags: BaseTags<B>, tags: Tags<B>, key: string): (r: Option<string>)
    ensures key == RouteKey ==> r == tags.route
    ensures key == ControllerKey ==> r == tags.controller
    ensures key == ActionKey ==> r == tags.action
    ensures key == AreaKey ==> r == tags.area
    ensures !IsOwnKey(key) ==> r == baseTags.get(tags.base, key)
  {
    if key == RouteKey then tags.route
    else if key == ControllerKey then tags.controller
    else if key == ActionKey then tags.action
    else if key == AreaKey then tags.area
    else baseTags.get(tags.base, key)
  }

  /**
   * `SetTag`: an own key replaces that property, so reading it back gives
   * the value and every other key reads as before; any other key goes to the
   * base list.
   */
  function SetTag<B>(baseTags: BaseTags<B>, tags: Tags<B>, key: string, value: string): (r: Tags<B>)
    ensures IsOwnKey(key) ==> GetTag(baseTags, r, key) == Some(value)
    ensures IsOwnKey(key) ==> forall other :: other != key ==> GetTag(baseTags, r, other) == GetTag(baseTags, tags, other)
    ensures !IsOwnKey(key) ==> r == tags.(base := baseTags.update(tags.base, key, value))
  {
    if key == RouteKey then tags.(route := Some(value))
    else if key == ControllerKey then tags.(controller := Some(value))
    else if key == ActionKey then tags.(action := Some(value))
    else if key == AreaKey then tags.(area := Some(value))
    else tags.(base := baseTags.update(tags.base, key, value))
  }

  /** The own tags in their fixed serialisation order. */
  function Fields<B>(tags: Tags<B>): seq<(string, Option<string>)> {
    [(RouteKey, tags.route), (ControllerKey, tags.controller), (ActionKey, tags.action), (AreaKey, tags.area)]
  }

  /** The pair a field contributes: one if it is set, none otherwise. */
  function Keep(field: (string, Option<string>)): (r: seq<(string, string)>)
    ensures |r| <= 1
  {
    if field.1.Some? then [(field.0, field.1.value)] else []
  }

  /** The set fields, in order, as (key, value) pairs. */
  function Present(fields: seq<(string, Option<string>)>): seq<(string, string)>
    decreases |fields|
  {
    if |fields| == 0 then []
    else Present(fields[..|fields| - 1]) + Keep(fields[|fields| - 1])
  }

  lemma PresentSnoc(fields: seq<(string, Option<string>)>, f: (string, Option<string>))
    ensures Present(fields + [f]) == Present(fields) + Keep(f)
  {
    assert (fields + [f])[..|fields|] == fields;
  }

  /** A pair is written exactly when its field is set to that value. */
  lemma {:induction false} PresentMembers(fields: seq<(string, Option<string>)>, key: string, value: string)
    ensures (key, value) in Present(fields) <==> (key, Some(value)) in fields
    decreases |fields|
  {
    if |fields| > 0 {
      var init := fields[..|fields| - 1];
      PresentMembers(init, key, value);
      assert fields == init + [fields[|fields| - 1]];
    }
  }

  /** `Present` of the four own fields, one field at a time. */
  lemma PresentFields<B>(tags: Tags<B>)
    ensures var fs := Fields(tags);
            Present(fs) == Keep(fs[0]) + Keep(fs[1]) + Keep(fs[2]) + Keep(fs[3])
  {
    var fs := Fields(tags);
    assert fs[..0] == [];
    PresentSnoc(fs[..0], fs[0]);
    assert fs[..1] == fs[..0] + [fs[0]];
    PresentSnoc(fs[..1], fs[1]);
    assert fs[..2] == fs[..1] + [fs[1]];
    PresentSnoc(fs[..2], fs[2]);
    assert fs[..3] == fs[..2] + [fs[2]];
    PresentSnoc(fs[..3], fs[3]);
    assert fs == fs[..3] + [fs[3]];
  }

  /** One `if (X != null) { count++; WriteTag(...); }` step of the binary writer. */
  method WriteField(count: nat, written: seq<(string, string)>, key: string, value: Option<string>)
    returns (count': nat, written': seq<(string, string)>)
    ensures written' == written + Keep((key, value))
    ensures count' == count + |Keep((key, value))|
  {
    count', written' := count, written;
    if value.Some? {
      count' := count' + 1;
      written' := written' + [(key, value.value)];
    } else {
      assert written' == written' + [];
    }
  }

  /**
   * `WriteAdditionalTags` (binary): each set own tag in order, then the base
   * list's tags; the count covers both.
   */
  method WriteBinary<B>(baseTags: BaseTags<B>, tags: Tags<B>) returns (count: nat, written: seq<(string, string)>)
    ensures written == Present(Fields(tags)) + baseTags.write(tags.base).1
    ensures count == |Present(Fields(tags))| + baseTags.write(tags.base).0
  {
    count, written := WriteField(0, [], RouteKey, tags.route);
    count, written := WriteField(count, written, ControllerKey, tags.controller);
    count, written := WriteField(count, written, ActionKey, tags.action);
    count, written := WriteField(count, written, AreaKey, tags.area);
    PresentFields(tags);
    var (baseCount, baseWritten) := baseTags.write(tags.base);
    count := count + baseCount;
    written := written + baseWritten;
  }

  /** The text form of one tag. */
  function Line(key: string, value: string): string {
    key + " (tag):" + value + ","
  }

  /** The text form of a list of pairs, in order. */
  function Render(pairs: seq<(string, string)>): string
    decreases |pairs|
  {
    if |pairs| == 0 then ""
    else Render(pairs[..|pairs| - 1]) + Line(pairs[|pairs| - 1].0, pairs[|pairs| - 1].1)
  }

  /** Rendering distributes over concatenation. */
  lemma {:induction false} RenderAppend(a: seq<(string, string)>, b: seq<(string, string)>)
    ensures Render(a + b) == Render(a) + Render(b)
    decreases |b|
  {
    if |b| == 0 {
      assert a + b == a;
    } else {
      var init := b[..|b| - 1];
      RenderAppend(a, init);
      assert (a + b)[..|a + b| - 1] == a + init;
    }
  }

  lemma RenderAppend4(k0: seq<(string, string)>, k1: seq<(string, string)>, k2: seq<(string, string)>, k3: seq<(string, string)>)
    ensures Render(k0 + k1 + k2 + k3) == Render(k0) + Render(k1) + Render(k2) + Render(k3)
  {
    var a := k0 + k1;
    var b := a + k2;
    RenderAppend(b, k3);
    RenderAppend(a, k2);
    RenderAppend(k0, k1);
  }

  /** The text of the own fields, one field at a time. */
  lemma RenderPresentFields<B>(tags: Tags<B>)
    ensures Render(Present(Fields(tags)))
         == Render(Keep((RouteKey, tags.route))) + Render(Keep((ControllerKey, tags.controller)))
            + Render(Keep((ActionKey, tags.action))) + Render(Keep((AreaKey, tags.area)))
  {
    var fs := Fields(tags);
    PresentFields(tags);
    RenderAppend4(Keep(fs[0]), Keep(fs[1]), Keep(fs[2]), Keep(fs[3]));
  }

  /** One `if (X != null) sb.Append(...)` step of the text writer. */
  method AppendField(text: string, key: string, value: Option<string>) returns (text': string)
    ensures text' == text + Render(Keep((key, value)))
  {
    text' := text;
    if value.Some? {
      text' := text' + Line(key, value.value);
      assert Render([(key, value.value)]) == Render([]) + Line(key, value.value);
    } else {
      assert text' == text' + Render([]);
    }
  }

  /**
   * `WriteAdditionalTags` (text): the same tags as the binary writer, in the
   * same order, each as `key (tag):value,`, then the base list's text.
   */
  method WriteText<B>(baseTags: BaseTags<B>, tags: Tags<B>) returns (text: string)
    ensures text == Render(Present(Fields(tags))) + baseTags.text(tags.base)
  {
    text := AppendField("", RouteKey, tags.route);
    assert text == Render(Keep((RouteKey, tags.route)));
    text := AppendField(text, ControllerKey, tags.controller);
    text := AppendField(text, ActionKey, tags.action);
    text := AppendField(text, AreaKey, tags.area);
    RenderPresentFields(tags);
    text := text + baseTags.text(tags.base);
  }

  /**
   * What the writers emit agrees with `GetTag`: an own key is written with a
   * value exactly when reading that key gives that value.
   */
  lemma WrittenAgreesWithGetTag<B>(baseTags: BaseTags<B>, tags: Tags<B>, key: string, value: string)
    requires IsOwnKey(key)
    ensures (key, value) in Present(Fields(tags)) <==> GetTag(baseTags, tags, key) == Some(value)
  {
    PresentMembers(Fields(tags), key, value);
    var fs := Fields(tags);
    if (key, Some(value)) in fs {
      var i :| 0 <= i < 4 && fs[i] == (key, Some(value));
      assert fs[i].0 == key;
    }
    if GetTag(baseTags, tags, key) == Some(value) {
      if key == RouteKey { assert fs[0] == (key, Some(value)); }
      else if key == ControllerKey { assert fs[1] == (key, Some(value)); }
      else if key == ActionKey { assert fs[2] == (key, Some(value)); }
      else { assert fs[3] == (key, Some(value)); }
    }
  }
}
