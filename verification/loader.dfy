/**
 * Two decisions of the managed loader: cleaning the list of assembly names
 * to load, and choosing the product-binaries subdirectory for the running
 * runtime. The runtime facts the source reads by reflection are inputs.
 */
module Loader {
  import opened Wrappers
  import Text
  import opened Versions

  predicate Valid(name: Option<string>) {
    !Text.IsNullOrWhiteSpace(name)
  }

  /** The valid names, in their original order. */
  function ValidNames(names: seq<Option<string>>): (r: seq<Option<string>>)
    ensures forall i :: 0 <= i < |r| ==> Valid(r[i])
    ensures |r| <= |names|
  {
    if |names| == 0 then []
    else (if Valid(names[0]) then [names[0]] else []) + ValidNames(names[1..])
  }

  function CountValid(names: seq<Option<string>>): (r: nat)
    ensures r <= |names|
  {
    if |names| == 0 then 0 else (if Valid(names[0]) then 1 else 0) + CountValid(names[1..])
  }

  lemma {:induction false} ValidNamesAppend(names: seq<Option<string>>, x: Option<string>)
    ensures ValidNames(names + [x]) == ValidNames(names) + (if Valid(x) then [x] else [])
    ensures CountValid(names + [x]) == CountValid(names) + (if Valid(x) then 1 else 0)
  {
    if |names| == 0 {
      assert names + [x] == [x];
      assert [x][1..] == [];
    } else {
      assert (names + [x])[1..] == names[1..] + [x];
      ValidNamesAppend(names[1..], x);
    }
  }

  /** The cleaned list has one entry per valid name. */
  lemma {:induction false} ValidNamesCount(names: seq<Option<string>>)
    ensures |ValidNames(names)| == CountValid(names)
  {
    if |names| > 0 {
      ValidNamesCount(names[1..]);
    }
  }

  /** The cleaned list holds every valid name and nothing else. */
  lemma {:induction false} ValidNamesMembers(names: seq<Option<string>>)
    ensures forall x :: x in ValidNames(names) <==> x in names && Valid(x)
  {
    if |names| > 0 {
      ValidNamesMembers(names[1..]);
      assert names == [names[0]] + names[1..];
    }
  }

  /** All names count exactly when all are valid, and then nothing is dropped. */
  lemma {:induction false} CountValidAll(names: seq<Option<string>>)
    ensures CountValid(names) == |names| <==> forall i :: 0 <= i < |names| ==> Valid(names[i])
    ensures CountValid(names) == |names| ==> ValidNames(names) == names
  {
    if |names| > 0 {
      CountValidAll(names[1..]);
      assert forall i :: 1 <= i < |names| ==> names[i] == names[1..][i - 1];
      if CountValid(names) == |names| {
        assert names == [names[0]] + names[1..];
      }
    }
  }

  /** No name counts exactly when none is valid. */
  lemma {:induction false} CountValidNone(names: seq<Option<string>>)
    ensures CountValid(names) == 0 <==> forall i :: 0 <= i < |names| ==> !Valid(names[i])
  {
    if |names| > 0 {
      CountValidNone(names[1..]);
      assert forall i :: 1 <= i < |names| ==> names[i] == names[1..][i - 1];
    }
  }

  /**
   * `CleanAssemblyNamesToLoad`: nothing to load (`None`) for a missing or
   * empty array or one without a valid name; the array itself when every
   * entry is valid; otherwise a new array of the valid entries in order.
   */
  method CleanAssemblyNames(names: Option<seq<Option<string>>>) returns (r: Option<seq<Option<string>>>)
    ensures names.None? || |names.value| == 0 ==> r.None?
    ensures names.Some? ==> (r.None? <==> forall i :: 0 <= i < |names.value| ==> !Valid(names.value[i]))
    ensures names.Some? && (forall i :: 0 <= i < |names.value| ==> Valid(names.value[i])) && |names.value| > 0 ==> r == names
    ensures r.Some? ==> r.value == ValidNames(names.value) && |r.value| == CountValid(names.value) > 0
  {
    if names.None? || |names.value| == 0 {
      return None;
    }
    var a := names.value;
    var count := 0;
    var i := 0;
    while i < |a|
      invariant 0 <= i <= |a|
      invariant count == CountValid(a[..i])
    {
      ValidNamesAppend(a[..i], a[i]);
      assert a[..i + 1] == a[..i] + [a[i]];
      if Valid(a[i]) {
        count := count + 1;
      }
      i := i + 1;
    }
    assert a[..|a|] == a;
    CountValidNone(a);
    if count == 0 {
      return None;
    }
    CountValidAll(a);
    if count == |a| {
      return names;
    }
    var valid := [];
    i := 0;
    while i < |a|
      invariant 0 <= i <= |a|
      invariant valid == ValidNames(a[..i])
    {
      ValidNamesAppend(a[..i], a[i]);
      assert a[..i + 1] == a[..i] + [a[i]];
      if Valid(a[i]) {
        valid := valid + [a[i]];
      }
      i := i + 1;
    }
    assert a[..|a|] == a;
    ValidNamesCount(a);
    return Some(valid);
  }

  /** The subdirectory and whether the runtime is .NET Core. */
  datatype Subdir = Subdir(name: string, isCoreFx: bool)

  const Mscorlib461Version := Version(4, 6, 1055, 0)

  /**
   * `GetRuntimeBasedProductBinariesSubdir`. `objectAssemblyName` is the full
   * name of the assembly defining `object`; `clrVersion` is
   * `Environment.Version`; `fileVersion` is the parsed file version of that
   * assembly, `None` when it is missing or cannot be parsed (the source's
   * exception path).
   */
  function RuntimeSubdir(objectAssemblyName: Option<string>, clrVersion: Version, fileVersion: Option<Version>): (r: Subdir)
    ensures r.isCoreFx <==> objectAssemblyName.Some? && Text.StartsWith(objectAssemblyName.value, "System.Private.CoreLib")
    ensures r.isCoreFx ==> (r.name == "netcoreapp3.1" <==> (clrVersion.major == 3 && clrVersion.minor >= 1) || clrVersion.major >= 5)
    ensures r.isCoreFx ==> r.name in {"netcoreapp3.1", "netstandard2.0"}
    ensures !r.isCoreFx ==> (r.name == "net461" <==> fileVersion.Some? && !Less(fileVersion.value, Mscorlib461Version))
    ensures !r.isCoreFx ==> r.name in {"net45", "net461"}
  {
    var isCoreFx := objectAssemblyName.Some? && Text.StartsWith(objectAssemblyName.value, "System.Private.CoreLib");
    if isCoreFx then
      Subdir(if (clrVersion.major == 3 && clrVersion.minor >= 1) || clrVersion.major >= 5 then "netcoreapp3.1" else "netstandard2.0", true)
    else
      Subdir(if fileVersion.Some? && !Less(fileVersion.value, Mscorlib461Version) then "net461" else "net45", false)
  }

  /** On .NET Framework, a newer mscorlib never selects an older distribution. */
  lemma FrameworkChoiceMonotone(name: Option<string>, clr: Version, v1: Version, v2: Version)
    requires !RuntimeSubdir(name, clr, Some(v1)).isCoreFx
    requires !Less(v2, v1)
    requires RuntimeSubdir(name, clr, Some(v1)).name == "net461"
    ensures RuntimeSubdir(name, clr, Some(v2)).name == "net461"
  {
    LessIsStrictTotal(v2, v1);
    if v1 != v2 && Less(v2, Mscorlib461Version) {
      LessIsTransitive(v1, v2, Mscorlib461Version);
    }
  }

  /** A .NET Framework exactly at 4.6.1055.0 already gets the 4.6.1 distribution, one just below does not. */
  lemma FrameworkThreshold(clr: Version)
    ensures RuntimeSubdir(None, clr, Some(Version(4, 6, 1055, 0))).name == "net461"
    ensures RuntimeSubdir(None, clr, Some(Version(4, 6, 1054, 9999))).name == "net45"
    ensures RuntimeSubdir(None, clr, None).name == "net45"
  {
  }
}
