/** What stands where in a file: the vocabulary in which the file readers are proved. */
module Layout {
  predicate HasAt<T(==)>(z: seq<T>, at: nat, part: seq<T>) {
    at + |part| <= |z| && z[at..at + |part|] == part
  }

  lemma {:induction false} PartBytes<T>(z: seq<T>, at: nat, part: seq<T>)
    requires HasAt(z, at, part)
    ensures forall i :: 0 <= i < |part| ==> z[at + i] == part[i]
  {
    forall i | 0 <= i < |part| ensures z[at + i] == part[i] { assert z[at..at + |part|][i] == part[i]; }
  }

  lemma {:induction false} HasParts<T>(z: seq<T>, at: nat, a: seq<T>, b: seq<T>)
    requires HasAt(z, at, a + b)
    ensures HasAt(z, at, a) && HasAt(z, at + |a|, b)
  {
    assert (a + b)[..|a|] == a && (a + b)[|a|..] == b;
    assert z[at..at + |a|] == z[at..at + |a + b|][..|a|];
    assert z[at + |a|..at + |a + b|] == z[at..at + |a + b|][|a|..];
  }

  lemma {:induction false} HasInLeft<T>(a: seq<T>, b: seq<T>, at: nat, part: seq<T>)
    requires HasAt(a, at, part)
    ensures HasAt(a + b, at, part)
  {
    assert (a + b)[at..at + |part|] == a[at..at + |part|];
  }

  lemma {:induction false} HasInRight<T>(a: seq<T>, b: seq<T>, at: nat, part: seq<T>)
    requires HasAt(b, at, part)
    ensures HasAt(a + b, |a| + at, part)
  {
    assert (a + b)[|a| + at..|a| + at + |part|] == b[at..at + |part|];
  }

  lemma {:induction false} HasJoined<T>(z: seq<T>, at: nat, a: seq<T>, b: seq<T>)
    requires HasAt(z, at, a) && HasAt(z, at + |a|, b)
    ensures HasAt(z, at, a + b)
  {
    assert z[at..at + |a + b|] == z[at..at + |a|] + z[at + |a|..at + |a| + |b|];
  }
}
