/** The few `path/filepath` and `strings` functions the model needs, on slash-separated paths. */
module Paths {
  /** What follows the last `c`, or the whole string. */
  function AfterLast(s: string, c: char): string {
    if s == "" then ""
    else if s[|s| - 1] == c then ""
    else AfterLast(s[..|s| - 1], c) + [s[|s| - 1]]
  }

  function StripSlashes(s: string): string {
    if s != "" && s[|s| - 1] == '/' then StripSlashes(s[..|s| - 1]) else s
  }

  function Base(path: string): string {
    if path == "" then "."
    else
      var q := StripSlashes(path);
      if q == "" then "/" else AfterLast(q, '/')
  }

  /** From the last dot of the last element, or nothing. */
  function Ext(path: string): string {
    if path == "" then ""
    else
      var c := path[|path| - 1];
      if c == '/' then ""
      else if c == '.' then "."
      else
        var e := Ext(path[..|path| - 1]);
        if e == "" then "" else e + [c]
  }

  function TrimSuffix(s: string, suffix: string): string {
    if |suffix| <= |s| && s[|s| - |suffix|..] == suffix then s[..|s| - |suffix|] else s
  }

  function TrimPrefix(s: string, prefix: string): string {
    if |prefix| <= |s| && s[..|prefix|] == prefix then s[|prefix|..] else s
  }

  function ReplaceAll(s: string, from: char, to: char): (r: string)
    ensures |r| == |s|
    ensures forall i :: 0 <= i < |s| ==> r[i] == if s[i] == from then to else s[i]
  {
    seq(|s|, i requires 0 <= i < |s| => if s[i] == from then to else s[i])
  }

  /** What follows the last dot is the extension, if no slash comes after it. */
  lemma {:induction false} ExtAfterDot(s: string, suffix: string)
    requires '.' !in suffix && '/' !in suffix
    ensures Ext(s + ("." + suffix)) == "." + suffix
  {
    var whole := s + ("." + suffix);
    if suffix == "" {
      assert whole[..|whole| - 1] == s;
    } else {
      var front, last := suffix[..|suffix| - 1], suffix[|suffix| - 1];
      assert suffix == front + [last];
      assert whole[..|whole| - 1] == s + ("." + front);
      ExtAfterDot(s, front);
    }
  }

  lemma ExtOfTar(s: string)
    ensures Ext(s + ".tar") == ".tar"
  {
    ExtAfterDot(s, "tar");
    assert "." + "tar" == ".tar";
  }

  lemma ExtOfJson(s: string)
    ensures Ext(s + ".json") == ".json"
  {
    ExtAfterDot(s, "json");
    assert "." + "json" == ".json";
  }

  lemma {:induction false} AfterLastFree(s: string, c: char)
    ensures c !in AfterLast(s, c)
  {
    if s != "" && s[|s| - 1] != c {
      AfterLastFree(s[..|s| - 1], c);
    }
  }

  lemma {:induction false} AfterLastSplit(a: string, c: char, b: string)
    requires c !in b
    ensures AfterLast(a + ([c] + b), c) == b
  {
    var s := a + ([c] + b);
    if b != "" {
      var front, last := b[..|b| - 1], b[|b| - 1];
      assert s[..|s| - 1] == a + ([c] + front);
      assert b == front + [last];
      AfterLastSplit(a, c, front);
    }
  }

  /** The last element of a path. */
  lemma BaseOfName(parent: string, name: string)
    requires name != "" && '/' !in name
    ensures Base(parent + ("/" + name)) == name
    ensures Base(name) == name
  {
    var path := parent + ("/" + name);
    assert path[|path| - 1] == name[|name| - 1] && name[|name| - 1] in name;
    AfterLastSplit(parent, '/', name);
    AfterLastWhole(name, '/');
  }

  /** Trailing slashes do not count. */
  lemma BaseIgnoresSlash(path: string)
    ensures Base("") == "." && Base("/") == "/"
    ensures path != "" ==> Base(path + "/") == Base(path)
  {
    assert (path + "/")[..|path|] == path;
    assert "/"[..0] == "";
  }

  lemma {:induction false} AfterLastWhole(s: string, c: char)
    requires c !in s
    ensures AfterLast(s, c) == s
  {
    if s != "" {
      assert s == s[..|s| - 1] + [s[|s| - 1]];
      AfterLastWhole(s[..|s| - 1], c);
    }
  }

  /** Without a dot in the last element there is no extension. */
  lemma {:induction false} NoExt(parent: string, name: string)
    requires '.' !in name && '/' !in name
    ensures Ext(parent + ("/" + name)) == ""
  {
    var path := parent + ("/" + name);
    if name == "" {
      assert path[|path| - 1] == '/';
    } else {
      var front, last := name[..|name| - 1], name[|name| - 1];
      assert name == front + [last];
      assert path[..|path| - 1] == parent + ("/" + front);
      NoExt(parent, front);
    }
  }

  /** A prefix is cut off where it stands, and only there. */
  lemma PrefixTrimmed(s: string, prefix: string)
    ensures TrimPrefix(prefix + s, prefix) == s
    ensures !(prefix <= s) ==> TrimPrefix(s, prefix) == s
  {
    assert (prefix + s)[..|prefix|] == prefix;
  }
}
