/** src/loader/Loader.cc: `LoadScene` walks the top-level keys of the scene
  * document and splits each "command.type" key at its first '.'. The split is
  * computed and then dropped: the scene returned is always a fresh default
  * `Scene`, which has no state. Reading the YAML document itself is not part of
  * this model; the document is the sequence of its top-level keys. */
module LoaderLoader {
  /** `std::string::npos`, the largest `size_t` (64 bits). */
  const Npos: int := 0xFFFF_FFFF_FFFF_FFFF
  const IntMax: int := 0x7FFF_FFFF

  /** `key.find(c)`: the first index holding `c`, or `npos`. */
  function Find(s: string, c: char): (k: int)
    requires |s| < Npos
    ensures k == Npos <==> c !in s
    ensures k != Npos ==> 0 <= k < |s| && s[k] == c && c !in s[..k]
  {
    var k := FindFrom(s, c, 0);
    assert s[0..] == s;
    if k == Npos then k
    else
      assert forall j :: 0 <= j < k ==> s[..k][j] == s[j];
      k
  }

  /** The search from index `i` on. */
  function FindFrom(s: string, c: char, i: int): (k: int)
    requires 0 <= i <= |s| < Npos
    ensures k == Npos <==> c !in s[i..]
    ensures k != Npos ==> i <= k < |s| && s[k] == c && forall j :: i <= j < k ==> s[j] != c
    decreases |s| - i
  {
    if i == |s| then Npos
    else if s[i] == c then i
    else
      assert s[i..] == [s[i]] + s[i + 1..];
      FindFrom(s, c, i + 1)
  }

  /** Storing a `size_t` in an `int`: the low 32 bits, read as two's complement. */
  function ToInt(n: int): (r: int)
    requires 0 <= n
    ensures -0x8000_0000 <= r <= IntMax
    ensures n <= IntMax ==> r == n
  {
    if n <= IntMax then n
    else
      var low := n % 0x1_0000_0000;
      if low <= IntMax then low else low - 0x1_0000_0000
  }

  /** Passing an `int` where a `size_t` is expected: the value modulo 2^64. */
  function ToSize(n: int): (r: int)
    ensures 0 <= r <= Npos
    ensures 0 <= n <= Npos ==> r == n
    ensures -(Npos + 1) <= n < 0 ==> r == n + Npos + 1
  {
    if 0 <= n <= Npos then n else n % (Npos + 1)
  }

  /** `s.substr(pos, count)`: at most `count` characters from `pos` on (`pos`
    * past the end throws, which the callers here never reach). */
  function Substr(s: string, pos: int, count: int := Npos): (r: string)
    requires 0 <= pos <= |s| && 0 <= count
    ensures |r| <= count
    ensures r == s[pos..if count < |s| - pos then pos + count else |s|]
  {
    if count < |s| - pos then s[pos..pos + count] else s[pos..]
  }

  /** The pair `(command, type)` `LoadScene` computes for `key`: `dot` is
    * `key.find('.')` stored in an `int`, so `npos` becomes -1; `substr(0, -1)`
    * converts -1 back to `npos`, and so yields the whole key. Keys longer than
    * `INT_MAX` characters, where the index itself would wrap, are excluded. */
  function SplitKey(key: string): (r: (string, string))
    requires |key| <= IntMax
    ensures '.' !in key ==> r == (key, "")
    ensures '.' in key ==> r.0 + "." + r.1 == key
    ensures '.' !in r.0
  {
    var found := Find(key, '.');
    var dot := ToInt(found);
    NposRoundTrip();
    FoundDot(key, found);
    var command := Substr(key, 0, ToSize(dot));
    var typ := if dot == -1 then "" else Substr(key, dot + 1);
    (command, typ)
  }

  /** `npos` stored in an `int` is -1, which converts back to `npos`. */
  lemma NposRoundTrip()
    ensures ToInt(Npos) == -1 && ToSize(-1) == Npos
  {
    assert Npos % 0x1_0000_0000 == 0xFFFF_FFFF;
  }

  /** A found index is kept when stored, and splits the key around its '.'. */
  lemma FoundDot(key: string, found: int)
    requires |key| <= IntMax && found == Find(key, '.')
    ensures found != Npos ==> ToInt(found) == found && 0 <= found < |key|
    ensures found != Npos ==> key == key[..found] + "." + key[found + 1..]
    ensures found != Npos ==> '.' !in key[..found]
  {
    if found != Npos {
      assert key == key[..found] + [key[found]] + key[found + 1..];
    }
  }

  /** Joining a command without '.' and any type with a '.' is undone by the
    * split: the type keeps every further '.' ("a.b.c" gives "a" and "b.c"). */
  lemma SplitKeyJoin(command: string, typ: string)
    requires '.' !in command && |command| + 1 + |typ| <= IntMax
    ensures SplitKey(command + "." + typ) == (command, typ)
  {
    var key := command + "." + typ;
    var n := |command|;
    assert key[n] == '.' && '.' in key;
    var r := SplitKey(key);
    var m := |r.0|;
    assert r.0 + "." + r.1 == key && '.' !in r.0;
    assert r.0 == key[..n] == command;
    assert r.1 == key[n + 1..] == typ;
  }

  /** The scene `LoadScene` returns: `Scene` declares no state, so there is one
    * value. */
  datatype Scene = Scene

  /** `LoadScene(root)`: the loop over the top-level keys and the scene it
    * returns. */
  method LoadScene(keys: seq<string>) returns (scene: Scene)
    requires forall i :: 0 <= i < |keys| ==> |keys[i]| <= IntMax
  {
    for i := 0 to |keys| {
      var (command, typ) := SplitKey(keys[i]);
    }
    scene := Scene;
  }
}
