/** str.strip() and str.split(":", 1), as far as names, poll texts and conversation keys need them. */
module Text {
  import opened Prelude

  /** The code points str.isspace() accepts. */
  predicate IsSpace(c: char) {
    var n := c as int;
    || 0x09 <= n <= 0x0D || 0x1C <= n <= 0x20 || n == 0x85 || n == 0xA0 || n == 0x1680
    || 0x2000 <= n <= 0x200A || n == 0x2028 || n == 0x2029 || n == 0x202F || n == 0x205F || n == 0x3000
  }

  function Strip(s: string): (t: string)
    ensures |t| <= |s|
    ensures t != [] ==> !IsSpace(t[0]) && !IsSpace(t[|t| - 1])
  {
    if s == [] then s
    else if IsSpace(s[0]) then Strip(s[1..])
    else if IsSpace(s[|s| - 1]) then Strip(s[..|s| - 1])
    else s
  }

  /** Stripping takes white space off both ends and nothing else. */
  lemma {:induction false} StripCutsSpaceOnly(s: string) returns (before: string, after: string)
    ensures s == before + Strip(s) + after
    ensures forall c | c in before + after :: IsSpace(c)
  {
    hide IsSpace;
    before, after := "", "";
    if s == [] {
    } else {
      var last := s[|s| - 1];
      if IsSpace(s[0]) {
        before, after := StripCutsSpaceOnly(s[1..]);
        before := [s[0]] + before;
      } else if IsSpace(last) {
        before, after := StripCutsSpaceOnly(s[..|s| - 1]);
        assert s == s[..|s| - 1] + [last];
        after := after + [last];
      }
    }
  }

  /** The text before and after the first ':'. */
  function SplitKey(key: string): (parts: Option<(string, string)>)
    ensures parts.Some? ==> key == parts.value.0 + ":" + parts.value.1 && ':' !in parts.value.0
    ensures parts.None? ==> ':' !in key
  {
    if key == [] then None
    else if key[0] == ':' then Some(([], key[1..]))
    else
      match SplitKey(key[1..])
      case None => None
      case Some((before, after)) => Some(([key[0]] + before, after))
  }

  function DmKey(a: Sub, b: Sub): string {
    var (lo, hi) := PairKey(a, b);
    lo + ":" + hi
  }

  lemma {:induction false} SplitsAtFirst(before: string, after: string)
    requires ':' !in before
    ensures SplitKey(before + ":" + after) == Some((before, after))
  {
    var key := before + ":" + after;
    if before == [] {
      assert key[1..] == after;
    } else {
      assert key[1..] == before[1..] + ":" + after;
      SplitsAtFirst(before[1..], after);
      assert before == [before[0]] + before[1..];
    }
  }

  /** Two pairs of users never share a settings key. */
  lemma DmKeyIdentifiesPair(a: Sub, b: Sub, c: Sub, d: Sub)
    ensures DmKey(a, b) == DmKey(c, d) <==> PairKey(a, b) == PairKey(c, d)
  {
    SplitsAtFirst(PairKey(a, b).0, PairKey(a, b).1);
    SplitsAtFirst(PairKey(c, d).0, PairKey(c, d).1);
  }
}
