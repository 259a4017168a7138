/** The associated data that binds a stored result to its request: three fields joined by newlines. */
module ResultCiphers {
  function AssociatedData(id: string, owner: string, digest: string): string {
    id + "\n" + owner + "\n" + digest
  }

  /** The id on the first line, the owner's hash on the second, the digest on the third. */
  lemma ThreeLines(id: string, owner: string, digest: string)
    ensures var s, m := AssociatedData(id, owner, digest), |id| + 1 + |owner|;
            && |s| == m + 1 + |digest|
            && s[..|id|] == id && s[|id|] == '\n' && s[|id| + 1..m] == owner && s[m] == '\n' && s[m + 1..] == digest
  {
  }

  lemma FirstLineIsUnique(a: string, b: string, x: string, y: string)
    requires '\n' !in a && '\n' !in b && a + "\n" + x == b + "\n" + y
    ensures a == b && x == y
  {
    var s, t := a + "\n" + x, b + "\n" + y;
    assert s[..|a|] == a && s[|a|] == '\n' && s[|a| + 1..] == x;
    assert t[..|b|] == b && t[|b|] == '\n' && t[|b| + 1..] == y;
    assert forall i :: 0 <= i < |a| ==> s[i] == a[i] && a[i] in a;
    assert forall i :: 0 <= i < |b| ==> t[i] == b[i] && b[i] in b;
    assert |a| == |b|;
  }

  /** Request ids and credential hashes hold no newline, so the joined text determines all three fields:
      a ciphertext never opens for another id, owner or digest. */
  lemma AssociatedDataIsInjective(id: string, owner: string, digest: string, id': string, owner': string, digest': string)
    requires '\n' !in id && '\n' !in id' && '\n' !in owner && '\n' !in owner'
    ensures AssociatedData(id, owner, digest) == AssociatedData(id', owner', digest')
            <==> id == id' && owner == owner' && digest == digest'
  {
    if AssociatedData(id, owner, digest) == AssociatedData(id', owner', digest') {
      assert AssociatedData(id, owner, digest) == id + "\n" + (owner + "\n" + digest);
      assert AssociatedData(id', owner', digest') == id' + "\n" + (owner' + "\n" + digest');
      FirstLineIsUnique(id, id', owner + "\n" + digest, owner' + "\n" + digest');
      FirstLineIsUnique(owner, owner', digest, digest');
    }
  }
}
