/**
 * `System.Version`: two to four components, where an unspecified build or
 * revision is -1, ordered component by component.
 */
module Versions {

  datatype Version = Version(major: int, minor: int, build: int, revision: int)

  /** `new Version(major, minor, build)`: the revision is left unspecified. */
  function Version3(major: nat, minor: nat, build: nat): Version {
    Version(major, minor, build, -1)
  }

  /** `a < b` on `System.Version`: lexicographic on (major, minor, build, revision). */
  predicate Less(a: Version, b: Version) {
    if a.major != b.major then a.major < b.major
    else if a.minor != b.minor then a.minor < b.minor
    else if a.build != b.build then a.build < b.build
    else a.revision < b.revision
  }

  /** The order is strict and total. */
  lemma LessIsStrictTotal(a: Version, b: Version)
    ensures !(Less(a, b) && Less(b, a))
    ensures a != b ==> Less(a, b) || Less(b, a)
    ensures !Less(a, a)
  {
  }

  lemma LessIsTransitive(a: Version, b: Version, c: Version)
    requires Less(a, b) && Less(b, c)
    ensures Less(a, c)
  {
  }
}
