/** The strings that name projected documents and backends tell their parts apart. */
module Names {
  import opened Strings
  import opened Projections
  import opened Sessions

  /** A decimal number is cut off a string by the last character that cannot belong to one. */
  lemma SameTail(a: string, b: string, c: char, s: string, t: string)
    requires a + [c] + s == b + [c] + t && c !in s && c !in t
    ensures a == b && s == t
  {
    var x := a + [c] + s;
    assert x[|x|-|s|..] == s && x[|x|-|t|..] == t;
    assert x[|a|] == c && x[|b|] == c;
    assert forall k | |a| < k < |x| :: x[k] == s[k-|a|-1];
    assert forall k | |b| < k < |x| :: x[k] == t[k-|b|-1];
    assert x[..|a|] == a && x[..|b|] == b && x[|a|+1..] == s && x[|b|+1..] == t;
  }

  /** A virtual name determines its file, version and host language. */
  lemma VirtualNameInjective(file: string, version: int32, kind: Host, file': string, version': int32, kind': Host)
    requires kind != OtherHost && kind' != OtherHost
    requires VirtualName(file, version, kind) == VirtualName(file', version', kind')
    ensures file == file' && version == version' && kind == kind'
  {
    var x := VirtualName(file, version, kind);
    assert x[|x|-1] == Extension(kind)[|Extension(kind)|-1] == Extension(kind')[|Extension(kind')|-1];
    var stem, stem' := file + ".plato-ls-", file' + ".plato-ls-";
    assert file + ".plato-ls-v" == stem + "v" && file' + ".plato-ls-v" == stem' + "v";
    assert x[..|x|-|Extension(kind)|] == stem + "v" + Decimal(version);
    assert x[..|x|-|Extension(kind)|] == stem' + "v" + Decimal(version');
    DecimalHasNoV(version);
    DecimalHasNoV(version');
    SameTail(stem, stem', 'v', Decimal(version), Decimal(version'));
    DecimalInjective(version, version');
    assert stem[..|file|] == file && stem'[..|file'|] == file';
  }

  lemma DecimalHasNoV(v: int)
    ensures 'v' !in Decimal(v)
  {
    DigitsAreDecimal(if v < 0 then -v else v);
  }

  /** A backend key determines its language, and with the executable also its root, even if the root contains `|`. */
  lemma KeyInjective(kind: Host, root: string, path: string, kind': Host, root': string, path': string)
    requires kind != OtherHost && kind' != OtherHost
    requires MakeKey(kind, root, path) == MakeKey(kind', root', path')
    ensures kind == kind' && (path == path' ==> root == root')
  {
    var key := MakeKey(kind, root, path);
    assert key[0] == KindName(kind)[0] == KindName(kind')[0];
    if path == path' {
      assert key[|KindName(kind)|+1..|key|-|path|-1] == root;
      assert key[|KindName(kind')|+1..|key|-|path|-1] == root';
    }
  }
}
