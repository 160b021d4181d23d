/** Final releases with three components, ordered as PEP 440 orders them. */
module Versions {

  datatype Version = Version(major: nat, minor: nat, patch: nat) {
    predicate Less(other: Version) {
      || major < other.major
      || (major == other.major && minor < other.minor)
      || (major == other.major && minor == other.minor && patch < other.patch)
    }
  }

  lemma VersionOrder(a: Version, b: Version, c: Version)
    ensures !a.Less(a)
    ensures a.Less(b) && b.Less(c) ==> a.Less(c)
    ensures a.Less(b) || b.Less(a) || a == b
  {
  }
}
