/** `os.path.join` of two POSIX path components, as the scripts call it. */
module PyPath {

  /** `os.path.join(a, b)`: an absolute `b` replaces `a`; otherwise `b` is appended,
      with a `/` in between unless `a` is empty or already ends in one. */
  function Join(a: string, b: string): string
  {
    if |b| > 0 && b[0] == '/' then b
    else if a == [] || a[|a| - 1] == '/' then a + b
    else a + "/" + b
  }

  /** Appending an extension to the last component appends it to the joined path. */
  lemma JoinExtends(a: string, b: string, ext: string)
    requires ext == [] || ext[0] != '/'
    ensures Join(a, b + ext) == Join(a, b) + ext
  {
    if |b| == 0 {
      assert b + ext == ext;
    } else if b[0] == '/' {
      assert (b + ext)[0] == '/';
    } else if a == [] || a[|a| - 1] == '/' {
      assert (b + ext)[0] == b[0];
      assert a + (b + ext) == (a + b) + ext;
    } else {
      assert (b + ext)[0] == b[0];
      assert a + "/" + (b + ext) == (a + "/" + b) + ext;
    }
  }

  /** The joined path ends with `b`, and starts with `a` unless `b` is absolute. */
  lemma JoinEnds(a: string, b: string)
    ensures var r := Join(a, b);
            |r| >= |b| && r[|r| - |b|..] == b && ((b == [] || b[0] != '/') ==> a <= r)
  {
    var r := Join(a, b);
    if !(|b| > 0 && b[0] == '/') {
      if a == [] || a[|a| - 1] == '/' {
        assert r == a + b;
      } else {
        assert r == a + "/" + b;
      }
    }
  }

  /** A character in neither component is not in their join. */
  lemma JoinAvoids(a: string, b: string, c: char)
    requires c != '/' && c !in a && c !in b
    ensures c !in Join(a, b)
  {
  }
}
