/** Strings as the Python code handles them: trimming, file-name sanitising,
    zero-padded numbers and lexicographic sorting. */
module Text {

  /** The characters that Python's `str.strip()` removes. */
  predicate IsSpace(c: char) {
    || '\t' <= c <= '\r' || '\U{1C}' <= c <= ' ' || c == '\U{85}' || c == '\U{A0}' || c == '\U{1680}'
    || '\U{2000}' <= c <= '\U{200A}' || c == '\U{2028}' || c == '\U{2029}' || c == '\U{202F}'
    || c == '\U{205F}' || c == '\U{3000}'
  }

  // ---------- trimming ----------

  function DropWhile(p: char -> bool, s: string): string {
    if s != [] && p(s[0]) then DropWhile(p, s[1..]) else s
  }

  function DropWhileEnd(p: char -> bool, s: string): string {
    if s != [] && p(s[|s| - 1]) then DropWhileEnd(p, s[..|s| - 1]) else s
  }

  lemma {:induction false} DropWhileFacts(p: char -> bool, s: string)
    ensures var r := DropWhile(p, s);
            && |r| <= |s| && r == s[|s| - |r|..]
            && (r == [] || !p(r[0]))
            && forall i :: 0 <= i < |s| - |r| ==> p(s[i])
  {
    if s != [] && p(s[0]) {
      var r := DropWhile(p, s[1..]);
      DropWhileFacts(p, s[1..]);
      assert r == s[1..][|s| - 1 - |r|..] == s[|s| - |r|..];
      forall i | 0 <= i < |s| - |r| ensures p(s[i]) {
        if i > 0 { assert p(s[1..][i - 1]); }
      }
    }
  }

  lemma {:induction false} DropWhileEndFacts(p: char -> bool, s: string)
    ensures var r := DropWhileEnd(p, s);
            && |r| <= |s| && r == s[..|r|]
            && (r == [] || !p(r[|r| - 1]))
            && forall i :: |r| <= i < |s| ==> p(s[i])
  {
    if s != [] && p(s[|s| - 1]) { DropWhileEndFacts(p, s[..|s| - 1]); }
  }

  function StripBy(p: char -> bool, s: string): string {
    DropWhileEnd(p, DropWhile(p, s))
  }

  /** Neither end of `s` would be trimmed. */
  predicate Bare(p: char -> bool, s: string) {
    s == [] || (!p(s[0]) && !p(s[|s| - 1]))
  }

  /** A stripped string is the middle of the input, with only strippable characters around it. */
  lemma StripByIsMiddle(p: char -> bool, s: string) returns (lo: nat, hi: nat)
    ensures lo <= hi <= |s| && StripBy(p, s) == s[lo..hi]
    ensures forall i :: 0 <= i < lo || hi <= i < |s| ==> p(s[i])
    ensures Bare(p, StripBy(p, s))
  {
    var t := DropWhile(p, s);
    var u := DropWhileEnd(p, t);
    DropWhileFacts(p, s);
    DropWhileEndFacts(p, t);
    lo := |s| - |t|;
    hi := lo + |u|;
    assert t == s[lo..];
    assert u == t[..|u|];
    forall i | hi <= i < |s| ensures p(s[i]) {
      assert s[i] == t[i - lo];
    }
    if u != [] {
      assert u[0] == t[0];
    }
  }

  /** Stripping is the identity exactly on strings with bare ends. */
  lemma StripByFixed(p: char -> bool, s: string)
    ensures StripBy(p, s) == s <==> Bare(p, s)
  {
    var lo, hi := StripByIsMiddle(p, s);
    if Bare(p, s) && s != [] {
      assert lo == 0;
      assert hi == |s|;
    }
  }

  function Strip(s: string): string {
    StripBy(IsSpace, s)
  }

  predicate Trimmed(s: string) {
    Bare(IsSpace, s)
  }

  /** A trailing newline is invisible after stripping. */
  lemma StripNewline(v: string)
    ensures Strip(v + "\n") == Strip(v)
  {
    var w := v + "\n";
    assert w[|v|] == '\n' && w[..|v|] == v;
    DropWhileAppend(IsSpace, v, '\n');
  }

  lemma DropWhileAppend(p: char -> bool, v: string, c: char)
    requires p(c)
    ensures StripBy(p, v + [c]) == StripBy(p, v)
  {
    if v == [] {
      assert [c][1..] == [];
    } else if p(v[0]) {
      assert (v + [c])[1..] == v[1..] + [c];
      DropWhileAppend(p, v[1..], c);
    } else {
      assert (v + [c])[..|v|] == v;
    }
  }

  // ---------- portable file names ----------

  /** Unicode's alphanumeric class, of which only this is needed: no such character is white space. */
  type AlnumClass = f: char -> bool | forall c :: f(c) ==> !IsSpace(c) witness (_ => false)

  predicate Kept(alnum: AlnumClass, c: char) {
    alnum(c) || c == '-' || c == '_' || c == '.'
  }

  function CleanedChar(alnum: AlnumClass, c: char): char {
    if Kept(alnum, c) then c else '_'
  }

  function Cleaned(alnum: AlnumClass, s: string): string {
    if s == [] then [] else [CleanedChar(alnum, s[0])] + Cleaned(alnum, s[1..])
  }

  lemma {:induction false} CleanedFacts(alnum: AlnumClass, s: string)
    ensures |Cleaned(alnum, s)| == |s|
    ensures forall i :: 0 <= i < |s| ==> Cleaned(alnum, s)[i] == CleanedChar(alnum, s[i])
  {
    if s != [] { CleanedFacts(alnum, s[1..]); }
  }

  const IsDot: char -> bool := c => c == '.'

  datatype Option<+T> = None | Some(value: T)

  /** `dict.get(key, default)` on an optional text. */
  function OrElse(s: Option<string>, default: string): string {
    if s.Some? then s.value else default
  }

  /** `safe_id` and `safe_record_id`: `None` is the ValueError on an id with nothing left of it. */
  function SafeId(alnum: AlnumClass, value: string): Option<string> {
    var cleaned := StripBy(IsDot, Cleaned(alnum, Strip(value)));
    if cleaned == "" then None else Some(cleaned)
  }

  /** What a sanitised id looks like. */
  predicate Portable(alnum: AlnumClass, k: string) {
    k != "" && Bare(IsDot, k) && forall i :: 0 <= i < |k| ==> Kept(alnum, k[i])
  }

  lemma KeptIsNotSpace(alnum: AlnumClass, c: char)
    requires Kept(alnum, c)
    ensures !IsSpace(c)
  {
  }

  lemma CleanedKeeps(alnum: AlnumClass, k: string)
    requires forall i :: 0 <= i < |k| ==> Kept(alnum, k[i])
    ensures Cleaned(alnum, k) == k
  {
    CleanedFacts(alnum, k);
  }

  lemma CleanedBodyKept(alnum: AlnumClass, s: string)
    requires StripBy(IsDot, Cleaned(alnum, s)) != ""
    ensures Portable(alnum, StripBy(IsDot, Cleaned(alnum, s)))
  {
    var t := Cleaned(alnum, s);
    CleanedFacts(alnum, s);
    var lo, hi := StripByIsMiddle(IsDot, t);
    var k := t[lo..hi];
    forall i | 0 <= i < |k| ensures Kept(alnum, k[i]) {
      assert k[i] == t[lo + i];
    }
  }

  lemma PortableFixed(alnum: AlnumClass, k: string)
    requires Portable(alnum, k)
    ensures SafeId(alnum, k) == Some(k)
  {
    KeptIsNotSpace(alnum, k[0]);
    KeptIsNotSpace(alnum, k[|k| - 1]);
    StripByFixed(IsSpace, k);
    CleanedKeeps(alnum, k);
    StripByFixed(IsDot, k);
  }

  /** A sanitised id is a portable name, and sanitising it again changes nothing. */
  lemma SafeIdIdempotent(alnum: AlnumClass, value: string)
    requires SafeId(alnum, value).Some?
    ensures var k := SafeId(alnum, value).value;
            Portable(alnum, k) && SafeId(alnum, k) == Some(k)
  {
    CleanedBodyKept(alnum, Strip(value));
    PortableFixed(alnum, SafeId(alnum, value).value);
  }

  /** What sanitising does to an id: of what is left without the white space at the ends and then the dots at the ends, every
      letter, digit, dash, underscore and dot is kept in its place and anything else becomes an underscore. */
  lemma SafeIdExactly(alnum: AlnumClass, value: string) returns (lo: nat, hi: nat)
    requires SafeId(alnum, value).Some?
    ensures lo < hi <= |value| && |SafeId(alnum, value).value| == hi - lo
    ensures forall i :: 0 <= i < hi - lo ==>
              var c := value[lo + i];
              SafeId(alnum, value).value[i] == if alnum(c) || c in {'-', '_', '.'} then c else '_'
    ensures forall i :: 0 <= i < lo || hi <= i < |value| ==> IsSpace(value[i]) || value[i] == '.'
  {
    hide *;
    var a, b := StripByIsMiddle(IsSpace, value);
    var t := Cleaned(alnum, Strip(value));
    SafeIdIs(alnum, value);
    CleanedFacts(alnum, value[a..b]);
    var c, d := StripByIsMiddle(IsDot, t);
    lo, hi := a + c, a + d;
    forall i | 0 <= i < hi - lo
      ensures SafeId(alnum, value).value[i] == if alnum(value[lo + i]) || value[lo + i] in {'-', '_', '.'} then value[lo + i] else '_'
    {
      CleanedCharIs(alnum, value[lo + i]);
    }
    forall i | 0 <= i < lo || hi <= i < |value| ensures IsSpace(value[i]) || value[i] == '.' {
      if a <= i < b {
        CleanedCharIs(alnum, value[i]);
        assert t[i - a] == CleanedChar(alnum, value[i]);
      }
    }
  }

  lemma SafeIdIs(alnum: AlnumClass, value: string)
    requires SafeId(alnum, value).Some?
    ensures SafeId(alnum, value).value == StripBy(IsDot, Cleaned(alnum, Strip(value))) != ""
    ensures Strip(value) == StripBy(IsSpace, value)
  {
    hide StripBy, Cleaned;
  }

  lemma CleanedCharIs(alnum: AlnumClass, c: char)
    ensures CleanedChar(alnum, c) == if alnum(c) || c in {'-', '_', '.'} then c else '_'
    ensures IsDot(CleanedChar(alnum, c)) ==> c == '.'
  {
  }

  /** The ids that are refused are exactly those made of dots between white space. */
  lemma SafeIdRefuses(alnum: AlnumClass, value: string)
    ensures SafeId(alnum, value).None? <==> forall c :: c in Strip(value) ==> c == '.'
  {
    var s := Strip(value);
    var t := Cleaned(alnum, s);
    CleanedFacts(alnum, s);
    var lo, hi := StripByIsMiddle(IsDot, t);
    if StripBy(IsDot, t) == "" {
      forall c | c in s ensures c == '.' {
        var i :| 0 <= i < |s| && s[i] == c;
        assert IsDot(t[i]);
      }
    } else {
      assert t[lo] == StripBy(IsDot, t)[0];
      assert s[lo] in s;
    }
  }

  // ---------- zero-padded decimals ----------

  function Digit(d: nat): char
    requires d < 10
  {
    '0' + d as char
  }

  function Decimal(n: nat): string {
    if n < 10 then [Digit(n)] else Decimal(n / 10) + [Digit(n % 10)]
  }

  function Zeros(n: nat): string {
    if n == 0 then [] else Zeros(n - 1) + ['0']
  }

  /** Python's `{n:08d}`. */
  function Padded(n: nat): string {
    var d := Decimal(n);
    if |d| < 8 then Zeros(8 - |d|) + d else d
  }

  function DigitValue(c: char): nat {
    if '0' <= c <= '9' then c as nat - '0' as nat else 0
  }

  function DecimalValue(s: string): nat {
    if s == [] then 0 else 10 * DecimalValue(s[..|s| - 1]) + DigitValue(s[|s| - 1])
  }

  lemma {:induction false} DecimalRoundTrip(n: nat)
    ensures Decimal(n) != [] && DecimalValue(Decimal(n)) == n
  {
    if n >= 10 {
      DecimalRoundTrip(n / 10);
      assert Decimal(n)[..|Decimal(n)| - 1] == Decimal(n / 10);
    } else {
      assert Decimal(n)[..0] == [];
    }
  }

  lemma {:induction false} LeadingZeros(k: nat, s: string)
    ensures DecimalValue(Zeros(k) + s) == DecimalValue(s)
  {
    if s != [] {
      assert (Zeros(k) + s)[..|Zeros(k) + s| - 1] == Zeros(k) + s[..|s| - 1];
      LeadingZeros(k, s[..|s| - 1]);
    } else if k > 0 {
      assert Zeros(k) + s == Zeros(k);
      assert Zeros(k)[..|Zeros(k)| - 1] == Zeros(k - 1);
      assert Zeros(k - 1) + s == Zeros(k - 1);
      LeadingZeros(k - 1, s);
    }
  }

  /** Padding loses nothing, so distinct numbers keep distinct texts past eight digits too. */
  lemma PaddedRoundTrip(n: nat)
    ensures DecimalValue(Padded(n)) == n
  {
    DecimalRoundTrip(n);
    LeadingZeros(if |Decimal(n)| < 8 then 8 - |Decimal(n)| else 0, Decimal(n));
  }

  function Pow10(k: nat): nat {
    if k == 0 then 1 else 10 * Pow10(k - 1)
  }

  lemma {:induction false} DecimalLength(n: nat, k: nat)
    requires k > 0
    ensures |Decimal(n)| <= k <==> n < Pow10(k)
    ensures forall i :: 0 <= i < |Decimal(n)| ==> '0' <= Decimal(n)[i] <= '9'
    ensures n > 0 ==> Decimal(n)[0] != '0'
    decreases n
  {
    if n >= 10 {
      if k > 1 {
        DecimalLength(n / 10, k - 1);
      } else {
        DecimalLength(n / 10, 1);
        assert Pow10(1) == 10 * Pow10(0);
      }
    } else {
      PowerPositive(k - 1);
    }
  }

  lemma PowerPositive(k: nat)
    ensures Pow10(k) >= 1
  {
  }

  lemma {:induction false} OnlyZeros(k: nat)
    ensures |Zeros(k)| == k && forall i :: 0 <= i < k ==> Zeros(k)[i] == '0'
  {
    if k > 0 { OnlyZeros(k - 1); }
  }

  /** What a padded number is: digits alone, worth that number, eight of them, or more without a leading zero when eight are
      too few. */
  lemma PaddedExactly(n: nat)
    ensures DecimalValue(Padded(n)) == n && forall i :: 0 <= i < |Padded(n)| ==> '0' <= Padded(n)[i] <= '9'
    ensures if n < 1_0000_0000 then |Padded(n)| == 8 else |Padded(n)| > 8 && Padded(n)[0] != '0'
  {
    hide Decimal, DecimalValue, Zeros, Pow10;
    PaddedRoundTrip(n);
    DecimalLength(n, 8);
    EighthPower();
    if |Decimal(n)| < 8 { OnlyZeros(8 - |Decimal(n)|); }
  }

  lemma EighthPower()
    ensures Pow10(8) == 1_0000_0000
  {
    assert Pow10(4) == 1_0000;
  }

  lemma PaddedInjective(m: nat, n: nat)
    requires Padded(m) == Padded(n)
    ensures m == n
  {
    PaddedRoundTrip(m);
    PaddedRoundTrip(n);
  }

  // ---------- sorting ----------

  predicate Leq(a: string, b: string) {
    a == [] || (b != [] && (a[0] < b[0] || (a[0] == b[0] && Leq(a[1..], b[1..]))))
  }

  lemma LeqTotal(a: string, b: string)
    ensures Leq(a, b) || Leq(b, a)
    ensures Leq(a, b) && Leq(b, a) ==> a == b
  {
    if a != [] && b != [] {
      LeqTotal(a[1..], b[1..]);
      if a[0] == b[0] && a[1..] == b[1..] {
        assert a == [a[0]] + a[1..] && b == [b[0]] + b[1..];
      }
    }
  }

  lemma LeqTransitive(a: string, b: string, c: string)
    requires Leq(a, b) && Leq(b, c)
    ensures Leq(a, c)
  {
    if a != [] && a[0] == b[0] == c[0] {
      LeqTransitive(a[1..], b[1..], c[1..]);
    }
  }

  predicate Sorted(s: seq<string>) {
    forall i, j :: 0 <= i < j < |s| ==> Leq(s[i], s[j])
  }

  function Insert(x: string, s: seq<string>): seq<string> {
    if s == [] then [x] else if Leq(x, s[0]) then [x] + s else [s[0]] + Insert(x, s[1..])
  }

  lemma {:induction false} InsertElements(x: string, s: seq<string>)
    ensures multiset(Insert(x, s)) == multiset(s) + multiset{x}
  {
    if s != [] {
      assert s == [s[0]] + s[1..];
      InsertElements(x, s[1..]);
    }
  }

  lemma InsertMembers(x: string, s: seq<string>, y: string)
    requires y in Insert(x, s)
    ensures y == x || y in s
  {
    InsertElements(x, s);
    assert y in multiset(Insert(x, s));
  }

  lemma SortedCons(x: string, s: seq<string>)
    requires Sorted(s) && forall y :: y in s ==> Leq(x, y)
    ensures Sorted([x] + s)
  {
  }

  lemma LeastIsFirst(s: seq<string>, y: string)
    requires Sorted(s) && s != [] && y in s
    ensures Leq(s[0], y)
  {
    LeqTotal(s[0], s[0]);
  }

  lemma {:induction false} InsertSorted(x: string, s: seq<string>)
    requires Sorted(s)
    ensures Sorted(Insert(x, s))
  {
    if s != [] {
      LeqTotal(x, s[0]);
      if Leq(x, s[0]) {
        forall y | y in s ensures Leq(x, y) {
          LeastIsFirst(s, y);
          LeqTransitive(x, s[0], y);
        }
        SortedCons(x, s);
      } else {
        InsertSorted(x, s[1..]);
        forall y | y in Insert(x, s[1..]) ensures Leq(s[0], y) {
          InsertMembers(x, s[1..], y);
          if y != x { LeastIsFirst(s, y); }
        }
        SortedCons(s[0], Insert(x, s[1..]));
      }
    }
  }

  /** Python's `sorted(list of str)`. */
  function Sort(s: seq<string>): seq<string> {
    if s == [] then [] else Insert(s[0], Sort(s[1..]))
  }

  lemma {:induction false} SortFacts(s: seq<string>)
    ensures Sorted(Sort(s)) && multiset(Sort(s)) == multiset(s)
  {
    if s != [] {
      assert s == [s[0]] + s[1..];
      SortFacts(s[1..]);
      InsertSorted(s[0], Sort(s[1..]));
      InsertElements(s[0], Sort(s[1..]));
    }
  }

  lemma SortedHead(a: seq<string>, b: seq<string>)
    requires Sorted(a) && Sorted(b) && multiset(a) == multiset(b) && a != [] && b != []
    ensures a[0] == b[0]
  {
    LeqTotal(a[0], a[0]);
    LeqTotal(a[0], b[0]);
    assert a[0] in multiset(b) && b[0] in multiset(a);
    var i :| 0 <= i < |b| && b[i] == a[0];
    var j :| 0 <= j < |a| && a[j] == b[0];
    assert Leq(b[0], a[0]);
    assert Leq(a[0], b[0]);
  }

  lemma TailMultiset(a: seq<string>)
    requires a != []
    ensures multiset(a[1..]) == multiset(a) - multiset{a[0]}
  {
    assert a == [a[0]] + a[1..];
  }

  /** A sorted list is determined by its elements, so sorting forgets the original order. */
  lemma {:induction false} SortedUnique(a: seq<string>, b: seq<string>)
    requires Sorted(a) && Sorted(b) && multiset(a) == multiset(b)
    ensures a == b
  {
    assert |multiset(a)| == |a| && |multiset(b)| == |b|;
    if a != [] {
      SortedHead(a, b);
      TailMultiset(a);
      TailMultiset(b);
      SortedUnique(a[1..], b[1..]);
      assert a == [a[0]] + a[1..] && b == [b[0]] + b[1..];
    }
  }

  // ---------- sorted sets ----------

  predicate IsLeast(s: set<string>, m: string) {
    m in s && forall x :: x in s ==> Leq(m, x)
  }

  /** The least of the others, or a new element that is smaller still. */
  lemma LeastOfTwo(s: set<string>, y: string, m: string)
    requires y in s && IsLeast(s - {y}, m)
    ensures IsLeast(s, m) || IsLeast(s, y)
  {
    LeqTotal(m, y);
    LeqTotal(y, y);
    if !Leq(m, y) {
      forall x | x in s ensures Leq(y, x) {
        if x != y { LeqTransitive(y, m, x); }
      }
    }
  }

  lemma OnlyOne(s: set<string>, y: string)
    requires y in s && s - {y} == {}
    ensures IsLeast(s, y)
  {
    LeqTotal(y, y);
    assert forall x :: x in s && x != y ==> x in s - {y};
  }

  lemma {:induction false} LeastExists(s: set<string>)
    requires s != {}
    ensures exists m :: IsLeast(s, m)
  {
    hide *;
    var y :| y in s;
    if s - {y} == {} {
      OnlyOne(s, y);
    } else {
      LeastExists(s - {y});
      var m :| IsLeast(s - {y}, m);
      LeastOfTwo(s, y, m);
    }
  }

  /** The least element first: Python's `sorted(set of str)`. */
  function SortedSet(s: set<string>): (r: seq<string>)
    ensures |r| == |s| && (forall x :: x in r <==> x in s)
  {
    if s == {} then [] else
      LeastExists(s);
      LeastUnique(s);
      var m :| m in s && IsLeast(s, m);
      [m] + SortedSet(s - {m})
  }

  lemma LeastUnique(s: set<string>)
    ensures forall m, n :: IsLeast(s, m) && IsLeast(s, n) ==> m == n
  {
    forall m, n | IsLeast(s, m) && IsLeast(s, n) ensures m == n
    {
      LeqTotal(m, n);
    }
  }

  lemma {:induction false} SortedSetSorted(s: set<string>)
    ensures Sorted(SortedSet(s))
  {
    if s != {} {
      var m := SortedSet(s)[0];
      LeastExists(s);
      LeastUnique(s);
      assert SortedSet(s)[1..] == SortedSet(s - {m});
      SortedSetSorted(s - {m});
    }
  }
}
