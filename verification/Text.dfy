/**
 Byte strings as the repository orders and sorts them.  A `string` stands for UTF-8 text, one
 `char` for one byte; every statement here holds for all character codes, so in particular for bytes.
 */
module Text {
  import opened Sorting

  datatype Option<+T> = None | Some(value: T)

  /** Byte-wise lexicographic order. */
  predicate Le(a: string, b: string)
  {
    a == "" || (b != "" && (a[0] < b[0] || (a[0] == b[0] && Le(a[1..], b[1..]))))
  }

  lemma {:induction false} LeReflexive(a: string)
    ensures Le(a, a)
  {
    if a != "" { LeReflexive(a[1..]); }
  }

  lemma {:induction false} LeTotal(a: string, b: string)
    ensures Le(a, b) || Le(b, a)
  {
    if a != "" && b != "" && a[0] == b[0] { LeTotal(a[1..], b[1..]); }
  }

  lemma {:induction false} LeAntisymmetric(a: string, b: string)
    requires Le(a, b) && Le(b, a)
    ensures a == b
  {
    if a != "" {
      LeAntisymmetric(a[1..], b[1..]);
      assert a == [a[0]] + a[1..] && b == [b[0]] + b[1..];
    }
  }

  lemma {:induction false} LeTransitive(a: string, b: string, c: string)
    requires Le(a, b) && Le(b, c)
    ensures Le(a, c)
  {
    if a != "" && a[0] == b[0] == c[0] { LeTransitive(a[1..], b[1..], c[1..]); }
  }

  ghost predicate StrictlyAscending(s: seq<string>)
  {
    AscendingBy(Le, s)
  }

  ghost function Elements<T>(s: seq<T>): set<T>
  {
    set x | x in s
  }

  /** A strictly ascending sequence is determined by its set of elements. */
  lemma {:induction false} AscendingIsUnique(a: seq<string>, b: seq<string>)
    requires StrictlyAscending(a) && StrictlyAscending(b) && Elements(a) == Elements(b)
    ensures a == b
  {
    AscendingMultiset(a);
    AscendingMultiset(b);
    LeIsTotalOrder();
    SortedIsUnique(Le, a, b);
  }

  lemma {:induction false} AscendingMultiset(a: seq<string>)
    requires StrictlyAscending(a)
    ensures multiset(a) == multiset(Elements(a))
  {
    if a == [] {
      assert Elements(a) == {};
    } else {
      var last := |a| - 1;
      AscendingMultiset(a[..last]);
      assert a == a[..last] + [a[last]];
      assert Elements(a) == Elements(a[..last]) + {a[last]};
    }
  }

  lemma LeIsTotalOrder()
    ensures TotalOrder(Le)
  {
    forall x, y ensures Le(x, y) || Le(y, x) { LeTotal(x, y); }
    forall x, y | Le(x, y) && Le(y, x) ensures x == y { LeAntisymmetric(x, y); }
    forall x, y, z | Le(x, y) && Le(y, z) ensures Le(x, z) { LeTransitive(x, y, z); }
  }

  /** `Vec<String>::sort`: the sorted arrangement of the same strings. */
  function Sort(s: seq<string>): (r: seq<string>)
    ensures multiset(r) == multiset(s)
  {
    SortBy(Le, s)
  }

  lemma SortIdempotent(s: seq<string>)
    ensures Sort(Sort(s)) == Sort(s)
  {
    LeIsTotalOrder();
    SortForgetsOrder(Le, Sort(s), s);
  }

  /** Collect a hash set and sort it; the iteration order of the set is arbitrary. */
  method SortedHashes(hashes: set<string>) returns (values: seq<string>)
    ensures StrictlyAscending(values) && Elements(values) == hashes
  {
    var rest := hashes;
    var collected: seq<string> := [];
    while rest != {}
      invariant multiset(collected) == multiset(hashes - rest) && rest <= hashes
      decreases rest
    {
      var x :| x in rest;
      assert hashes - (rest - {x}) == (hashes - rest) + {x};
      collected, rest := collected + [x], rest - {x};
    }
    assert hashes - rest == hashes;
    values := Sort(collected);
    SortIdempotent(collected);
    SortedSetIsAscending(hashes, values);
  }

  lemma RepeatedElement(s: seq<string>, i: nat, j: nat)
    requires i < j < |s| && s[i] == s[j]
    ensures multiset(s)[s[i]] >= 2
  {
    assert s == s[..i] + [s[i]] + s[i + 1..j] + [s[j]] + s[j + 1..];
  }

  lemma SortedSetIsAscending(hashes: set<string>, values: seq<string>)
    requires multiset(values) == multiset(hashes) && values == Sort(values)
    ensures StrictlyAscending(values) && Elements(values) == hashes
  {
    forall x ensures x in values <==> x in hashes {
      assert x in values <==> x in multiset(values);
    }
    LeIsTotalOrder();
    SortBySorted(Le, values);
    forall i, j | 0 <= i < j < |values| ensures values[i] != values[j] {
      if values[i] == values[j] { RepeatedElement(values, i, j); }
    }
  }

  /** Decimal digits of a natural number, as `to_string` prints them. */
  function Decimal(n: nat): (s: string)
    ensures |s| >= 1
    ensures forall c :: c in s ==> '0' <= c <= '9'
  {
    var digit := [('0' as int + n % 10) as char];
    if n < 10 then digit else Decimal(n / 10) + digit
  }

  function Signed(n: int): string
  {
    if n < 0 then "-" + Decimal(-n) else Decimal(n)
  }

  function HexDigit(d: nat): char
    requires d < 16
  {
    if d < 10 then ('0' as int + d) as char else ('a' as int + d - 10) as char
  }

  function HexDigits(n: nat): string
  {
    (if n < 16 then "" else HexDigits(n / 16)) + [HexDigit(n % 16)]
  }

  /** The alternate hexadecimal form `{:#x}`. */
  function Hex(n: nat): string
  {
    "0x" + HexDigits(n)
  }
}
