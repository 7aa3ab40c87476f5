/** Small shared vocabulary: options, subs and their order, decimal text. */
module Prelude {

  datatype Option<+T> = None | Some(value: T)

  /** A user's subject identifier. The project assumes that it holds no ':'. */
  type Sub = s: string | ':' !in s witness "u"

  /** The order `a < b` on strings: lexicographic by code point. */
  predicate Less(a: string, b: string) {
    b != [] && (a == [] || a[0] < b[0] || (a[0] == b[0] && Less(a[1..], b[1..])))
  }

  lemma {:induction false} LessIsStrictTotal(a: string, b: string)
    ensures Less(a, b) <==> a != b && !Less(b, a)
  {
    if a == [] || b == [] || a[0] != b[0] {
    } else {
      assert a == [a[0]] + a[1..] && b == [b[0]] + b[1..];
      LessIsStrictTotal(a[1..], b[1..]);
    }
  }

  /** The unordered pair {a, b} as an ordered key. */
  function PairKey(a: Sub, b: Sub): (Sub, Sub) {
    if Less(a, b) then (a, b) else (b, a)
  }

  /** One key per unordered pair: both orders give it, and no other pair does. */
  lemma PairKeyIdentifiesPair(a: Sub, b: Sub, c: Sub, d: Sub)
    ensures PairKey(a, b) == PairKey(c, d) <==> ((a == c && b == d) || (a == d && b == c))
  {
    LessIsStrictTotal(a, b);
    LessIsStrictTotal(c, d);
  }

  /** str(n) for a row id. */
  function Decimal(n: nat): (s: string)
    ensures s != []
    ensures forall i | 0 <= i < |s| :: '0' <= s[i] <= '9'
  {
    if n < 10 then [DigitChar(n)] else Decimal(n / 10) + [DigitChar(n % 10)]
  }

  function DigitChar(d: nat): (c: char)
    requires d < 10
    ensures '0' <= c <= '9' && c as int - '0' as int == d
  {
    (d + '0' as int) as char
  }

  function ParseDecimal(s: string): nat
    requires forall i | 0 <= i < |s| :: '0' <= s[i] <= '9'
  {
    if s == [] then 0
    else 10 * ParseDecimal(s[..|s| - 1]) + (s[|s| - 1] as int - '0' as int)
  }

  lemma {:induction false} DecimalRoundTrip(n: nat)
    ensures ParseDecimal(Decimal(n)) == n
  {
    if n < 10 {
    } else {
      DecimalRoundTrip(n / 10);
      var s := Decimal(n);
      assert s[..|s| - 1] == Decimal(n / 10);
    }
  }

  lemma DecimalInjective(m: nat, n: nat)
    requires Decimal(m) == Decimal(n)
    ensures m == n
  {
    DecimalRoundTrip(m);
    DecimalRoundTrip(n);
  }

  function Elements<T>(s: seq<T>): set<T> {
    set x | x in s
  }

  /** Any element of a set. */
  method Pick<T>(s: set<T>) returns (x: T)
    requires s != {}
    ensures x in s
  {
    x :| x in s;
  }

  lemma OneMoreElement<T>(s: seq<T>, x: T)
    ensures Elements(s + [x]) == Elements(s) + {x}
    ensures x in Elements(s) <==> x in s
  {
  }

  lemma EntriesAreElements<T>(s: seq<T>)
    ensures forall i | 0 <= i < |s| :: s[i] in Elements(s)
  {
  }

  lemma {:induction false} SubsetSize<T>(a: set<T>, b: set<T>)
    requires a <= b
    ensures |a| <= |b|
  {
    if a == {} {
    } else {
      var x :| x in a;
      SubsetSize(a - {x}, b - {x});
    }
  }
}
