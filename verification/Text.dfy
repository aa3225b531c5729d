/** The string functions of Go's standard library that the configuration and the
    command builder lean on: strings.TrimSpace, strings.Join and strconv.Itoa. */
module Text {

  /** unicode.IsSpace */
  predicate IsSpace(c: char) {
    || c in {'\t', '\n', '\U{0B}', '\U{0C}', '\r', ' ', '\U{85}', '\U{A0}', '\U{1680}'}
    || '\U{2000}' <= c <= '\U{200A}'
    || c in {'\U{2028}', '\U{2029}', '\U{202F}', '\U{205F}', '\U{3000}'}
  }

  function TrimLeft(s: string): (r: string)
    ensures |r| <= |s| && r == s[|s| - |r|..] && (r != "" ==> !IsSpace(r[0]))
  {
    if s != "" && IsSpace(s[0]) then TrimLeft(s[1..]) else s
  }

  function TrimRight(s: string): (r: string)
    ensures |r| <= |s| && r == s[..|r|] && (r != "" ==> !IsSpace(r[|r| - 1]))
  {
    if s != "" && IsSpace(s[|s| - 1]) then TrimRight(s[..|s| - 1]) else s
  }

  function TrimSpace(s: string): string {
    TrimRight(TrimLeft(s))
  }

  /** A trimmed string has no white space at either end, so trimming again changes nothing. */
  lemma TrimTwice(s: string)
    ensures var r := TrimSpace(s);
      (r != "" ==> !IsSpace(r[0]) && !IsSpace(r[|r| - 1])) && TrimSpace(r) == r
  {
  }

  predicate AllSpace(s: string) {
    forall j | 0 <= j < |s| :: IsSpace(s[j])
  }

  predicate Surrounded(s: string, a: string, r: string, b: string) {
    s == a + r + b && AllSpace(a) && AllSpace(b)
  }

  /** r is s without the white space at both ends. */
  ghost predicate Trims(s: string, r: string) {
    (exists a, b :: Surrounded(s, a, r, b)) && (r != "" ==> !IsSpace(r[0]) && !IsSpace(r[|r| - 1]))
  }

  lemma {:induction false} TrimLeftDrops(s: string)
    ensures AllSpace(s[..|s| - |TrimLeft(s)|])
  {
    if s != "" && IsSpace(s[0]) {
      TrimLeftDrops(s[1..]);
      assert s[..|s| - |TrimLeft(s)|] == [s[0]] + s[1..][..|s[1..]| - |TrimLeft(s)|];
    }
  }

  lemma {:induction false} TrimRightDrops(s: string)
    ensures AllSpace(s[|TrimRight(s)|..])
  {
    var n := |s| - 1;
    if s != "" && IsSpace(s[n]) {
      TrimRightDrops(s[..n]);
      assert s[|TrimRight(s)|..] == s[..n][|TrimRight(s)|..] + [s[n]];
    }
  }

  /** Trimming takes away white space and nothing else, and all of it. */
  lemma TrimExactly(s: string)
    ensures Trims(s, TrimSpace(s))
  {
    TrimTwice(s);
    hide IsSpace, AllSpace, TrimLeft, TrimRight;
    TrimLeftDrops(s);
    var l := TrimLeft(s);
    TrimRightDrops(l);
    var r := TrimSpace(s);
    ThreePieces(s, |s| - |l|, |r|);
    assert Surrounded(s, s[..|s| - |l|], r, l[|r|..]);
  }

  lemma ThreePieces(s: string, i: nat, j: nat)
    requires i + j <= |s|
    ensures s == s[..i] + s[i..][..j] + s[i..][j..]
  {
  }

  /** What is left starts no later and ends no earlier than anything else that is left. */
  lemma TrimsWithin(s: string, a: string, r: string, b: string, a': string, r': string, b': string)
    requires Surrounded(s, a, r, b) && Surrounded(s, a', r', b')
    requires r != "" && !IsSpace(r[0]) && !IsSpace(r[|r| - 1])
    ensures |a'| <= |a| && |a| + |r| <= |a'| + |r'|
  {
    hide IsSpace;
    assert s[|a|] == r[0] && s[|a| + |r| - 1] == r[|r| - 1];
  }

  lemma TrimsOnce(s: string, r: string, r': string)
    requires Trims(s, r) && Trims(s, r')
    ensures r == r'
  {
    hide IsSpace, Surrounded;
    var a, b :| Surrounded(s, a, r, b);
    var a', b' :| Surrounded(s, a', r', b');
    if r != "" {
      TrimsWithin(s, a, r, b, a', r', b');
      TrimsWithin(s, a', r', b', a, r, b);
      MiddlePiece(s, a, r, b);
      MiddlePiece(s, a', r', b');
    } else if r' != "" {
      TrimsWithin(s, a', r', b', a, r, b);
    }
  }

  lemma MiddlePiece(s: string, a: string, r: string, b: string)
    requires Surrounded(s, a, r, b)
    ensures |a| + |r| <= |s| && r == s[|a|..|a| + |r|]
  {
  }

  /** Nothing is left exactly when there is nothing but white space. */
  lemma BlankExactly(s: string)
    ensures TrimSpace(s) == "" <==> AllSpace(s)
  {
    hide IsSpace, TrimSpace;
    TrimExactly(s);
    var r := TrimSpace(s);
    var a, b :| Surrounded(s, a, r, b);
    if r != "" {
      assert s[|a|] == r[0];
    }
  }

  function Join(parts: seq<string>, sep: string): string {
    if parts == [] then ""
    else if |parts| == 1 then parts[0]
    else parts[0] + sep + Join(parts[1..], sep)
  }

  function Digit(n: nat): char
    requires n < 10
  {
    "0123456789"[n]
  }

  predicate IsDigit(c: char) {
    '0' <= c <= '9'
  }

  /** strconv.Itoa of a number that is not negative */
  function Decimal(n: nat): (r: string)
    ensures r != "" && forall c | c in r :: IsDigit(c)
  {
    if n < 10 then [Digit(n)] else Decimal(n / 10) + [Digit(n % 10)]
  }

  function ParseDecimal(s: string): nat
    requires forall c | c in s :: IsDigit(c)
  {
    if s == "" then 0
    else
      var last := s[|s| - 1];
      assert last in s && IsDigit(last);
      10 * ParseDecimal(s[..|s| - 1]) + (last as int - '0' as int)
  }

  lemma {:induction false} DecimalRoundTrip(n: nat)
    ensures ParseDecimal(Decimal(n)) == n
  {
    if n < 10 {
      assert Decimal(n)[..0] == "";
    } else {
      DecimalRoundTrip(n / 10);
      assert Decimal(n)[..|Decimal(n)| - 1] == Decimal(n / 10);
    }
  }

  // ---- lists without repetition

  function Trimmed(items: seq<string>): seq<string> {
    seq(|items|, k requires 0 <= k < |items| => TrimSpace(items[k]))
  }

  /** The items that are not empty, each once, where it came first. */
  function Distinct(items: seq<string>): seq<string> {
    if items == [] then []
    else
      var before, item := Distinct(items[..|items| - 1]), items[|items| - 1];
      if item == "" || item in before then before else before + [item]
  }

  /** Where an item stands first. */
  function FirstAt(items: seq<string>, item: string): (k: nat)
    ensures k <= |items| && (k < |items| ==> items[k] == item) && item !in items[..k]
  {
    if items == [] || items[0] == item then 0 else 1 + FirstAt(items[1..], item)
  }

  lemma {:induction false} FirstIsUnique(items: seq<string>, item: string, k: nat)
    requires k < |items| && items[k] == item && item !in items[..k]
    ensures FirstAt(items, item) == k
  {
    if k > 0 {
      assert items[..k][0] == items[0];
      assert items[1..][..k - 1] == items[..k][1..];
      FirstIsUnique(items[1..], item, k - 1);
    }
  }

  lemma FirstAtKeeps(items: seq<string>, last: string, item: string)
    requires item in items
    ensures FirstAt(items + [last], item) == FirstAt(items, item) < |items|
  {
    var k := FirstAt(items, item);
    assert items[..|items|] == items;
    assert (items + [last])[..k] == items[..k];
    FirstIsUnique(items + [last], item, k);
  }

  lemma FirstAtEnd(items: seq<string>, last: string)
    requires last !in items
    ensures FirstAt(items + [last], last) == |items|
  {
    assert (items + [last])[..|items|] == items;
    FirstIsUnique(items + [last], last, |items|);
  }

  predicate InOrder(items: seq<string>, d: seq<string>) {
    forall i, j | 0 <= i < j < |d| :: d[i] != d[j] && FirstAt(items, d[i]) < FirstAt(items, d[j])
  }

  /** Exactly the non-empty items, none twice, in the order of their first occurrence. */
  lemma {:induction false} DistinctItems(items: seq<string>)
    ensures forall x :: x in Distinct(items) <==> x != "" && x in items
    ensures InOrder(items, Distinct(items))
  {
    if items != [] {
      var front, last := items[..|items| - 1], items[|items| - 1];
      DistinctItems(front);
      assert items == front + [last];
      var d := Distinct(items);
      forall i, j | 0 <= i < j < |d| ensures d[i] != d[j] && FirstAt(items, d[i]) < FirstAt(items, d[j]) {
        assert d[i] in Distinct(front);
        FirstAtKeeps(front, last, d[i]);
        if j < |Distinct(front)| {
          assert d[j] in Distinct(front);
          FirstAtKeeps(front, last, d[j]);
        } else {
          FirstAtEnd(front, last);
        }
      }
    }
  }
}
