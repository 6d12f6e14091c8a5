/** Optional results, and the part of Go's `strings` package that the driver's parsers rely on. */
module Strings {

  datatype Option<+T> = None | Some(value: T)

  /** `sep` stands in `s` at position `i`. */
  predicate OccursAt(s: string, sep: string, i: int) {
    0 <= i && i + |sep| <= |s| && s[i..i + |sep|] == sep
  }

  predicate Contains(s: string, sep: string) {
    exists i | 0 <= i <= |s| :: OccursAt(s, sep, i)
  }

  /** Position of the first occurrence of `sep` at or after `from`, or -1. */
  function IndexFrom(s: string, sep: string, from: nat): (i: int)
    requires from <= |s|
    ensures -1 <= i
    ensures i >= 0 ==> from <= i && OccursAt(s, sep, i)
    ensures forall j | from <= j && (i < 0 || j < i) :: !OccursAt(s, sep, j)
    decreases |s| - from
  {
    if OccursAt(s, sep, from) then from
    else if from == |s| then -1
    else IndexFrom(s, sep, from + 1)
  }

  function Index(s: string, sep: string): int {
    IndexFrom(s, sep, 0)
  }

  /** `strings.Split` with a nonempty separator: cut at the first occurrence, left to right. */
  function Split(s: string, sep: string): (parts: seq<string>)
    requires sep != ""
    ensures parts != []
    decreases |s|
  {
    var i := Index(s, sep);
    if i < 0 then [s] else [s[..i]] + Split(s[i + |sep|..], sep)
  }

  function Join(parts: seq<string>, sep: string): string
    requires parts != []
  {
    if |parts| == 1 then parts[0] else parts[0] + sep + Join(parts[1..], sep)
  }

  function Count(s: string, c: char): nat {
    if s == "" then 0 else (if s[0] == c then 1 else 0) + Count(s[1..], c)
  }

  /** Splitting loses nothing, and no piece still holds the separator. */
  lemma {:induction false} SplitJoin(s: string, sep: string)
    requires sep != ""
    ensures Join(Split(s, sep), sep) == s
    ensures forall p | p in Split(s, sep) :: !Contains(p, sep)
    decreases |s|
  {
    var i := Index(s, sep);
    if i < 0 {
      assert Split(s, sep) == [s];
    } else {
      var rest := s[i + |sep|..];
      SplitJoin(rest, sep);
      assert s == s[..i] + sep + rest;
      forall k | 0 <= k <= i ensures !OccursAt(s[..i], sep, k) {
        if OccursAt(s[..i], sep, k) {
          assert s[k..k + |sep|] == s[..i][k..k + |sep|];
          assert OccursAt(s, sep, k);
        }
      }
      assert Split(s, sep)[1..] == Split(rest, sep);
    }
  }

  /** If the first occurrence is at `i`, Split peels exactly that prefix. */
  lemma SplitFirst(head: string, sep: string, rest: string)
    requires sep != ""
    requires Index(head + sep + rest, sep) == |head|
    ensures Split(head + sep + rest, sep) == [head] + Split(rest, sep)
  {
    var s := head + sep + rest;
    assert s[..|head|] == head;
    assert s[|head| + |sep|..] == rest;
  }

  lemma FirstOfOneChar(head: string, c: char, rest: string)
    requires c !in head
    ensures Index(head + [c] + rest, [c]) == |head|
  {
    var s := head + [c] + rest;
    assert s[|head|..|head| + 1] == [c];
    assert OccursAt(s, [c], |head|);
    forall i | 0 <= i < |head| ensures !OccursAt(s, [c], i) {
      assert s[i..i + 1][0] == head[i];
    }
  }

  lemma NoSplit(s: string, c: char)
    requires c !in s
    ensures Split(s, [c]) == [s]
  {
    forall i | 0 <= i < |s| ensures !OccursAt(s, [c], i) {
      assert s[i..i + 1][0] == s[i];
    }
  }

  lemma ContainsOneChar(s: string, c: char)
    ensures Contains(s, [c]) <==> c in s
  {
    if Contains(s, [c]) {
      var i :| 0 <= i <= |s| && OccursAt(s, [c], i);
      assert s[i..i + 1][0] == s[i];
    }
    if c in s {
      var i :| 0 <= i < |s| && s[i] == c;
      assert s[i..i + 1] == [c];
      assert OccursAt(s, [c], i);
    }
  }

  /** Joining and splitting on one character gives the fields back exactly when none of them holds it. */
  lemma {:induction false} JoinSplit(parts: seq<string>, c: char)
    requires parts != []
    ensures Split(Join(parts, [c]), [c]) == parts <==> forall p | p in parts :: c !in p
  {
    if forall p | p in parts :: c !in p {
      JoinSplitClean(parts, c);
    } else {
      var p :| p in parts && c in p;
      SplitJoin(Join(parts, [c]), [c]);
      ContainsOneChar(p, c);
    }
  }

  lemma {:induction false} JoinSplitClean(parts: seq<string>, c: char)
    requires parts != []
    requires forall p | p in parts :: c !in p
    ensures Split(Join(parts, [c]), [c]) == parts
  {
    if |parts| == 1 {
      NoSplit(parts[0], c);
    } else {
      JoinSplitClean(parts[1..], c);
      FirstOfOneChar(parts[0], c, Join(parts[1..], [c]));
      SplitFirst(parts[0], [c], Join(parts[1..], [c]));
    }
  }

  lemma {:induction false} CountAppend(s: string, t: string, c: char)
    ensures Count(s + t, c) == Count(s, c) + Count(t, c)
  {
    if s == "" {
      assert s + t == t;
    } else {
      CountAppend(s[1..], t, c);
      assert (s + t)[1..] == s[1..] + t;
    }
  }

  lemma {:induction false} CountZero(s: string, c: char)
    ensures Count(s, c) == 0 <==> c !in s
  {
    if s != "" {
      CountZero(s[1..], c);
      assert s == [s[0]] + s[1..];
    }
  }

  /** Split on one character gives one piece more than the character occurs. */
  lemma {:induction false} SplitCount(s: string, c: char)
    ensures |Split(s, [c])| == Count(s, c) + 1
    decreases |s|
  {
    var i := Index(s, [c]);
    if i < 0 {
      if c in s {
        var k :| 0 <= k < |s| && s[k] == c;
        assert OccursAt(s, [c], k);
      }
      CountZero(s, c);
    } else {
      var head, rest := s[..i], s[i + 1..];
      SplitCount(rest, c);
      if c in head {
        var k :| 0 <= k < |head| && head[k] == c;
        assert OccursAt(s, [c], k);
      }
      CountZero(head, c);
      assert s == (head + [c]) + rest;
      CountAppend(head + [c], rest, c);
      CountAppend(head, [c], c);
      assert Count([c], c) == 1;
    }
  }

  function LowerChar(c: char): char {
    if 'A' <= c <= 'Z' then c - 'A' + 'a' else c
  }

  /** `strings.ToLower` on the ASCII letters. */
  function ToLower(s: string): string {
    seq(|s|, i requires 0 <= i < |s| => LowerChar(s[i]))
  }

  function Digit(d: nat): char
    requires d < 10
  {
    '0' + d as char
  }

  /** `strconv.Itoa`. */
  function Itoa(n: int): (s: string)
    ensures s != ""
    ensures ',' !in s && ':' !in s
    decreases n < 0, if n < 0 then -n else n
  {
    if n < 0 then "-" + Itoa(-n)
    else if n < 10 then [Digit(n)]
    else Itoa(n / 10) + [Digit(n % 10)]
  }

  /** The value of a nonempty string of decimal digits. */
  function Digits(s: string): Option<nat> {
    if s == "" || !('0' <= s[|s| - 1] <= '9') then None
    else
      var low := (s[|s| - 1] - '0') as int;
      if |s| == 1 then Some(low)
      else match Digits(s[..|s| - 1])
        case None => None
        case Some(high) => Some(10 * high + low)
  }

  const MAX_INT64: int := 0x7FFF_FFFF_FFFF_FFFF

  /** `strconv.Atoi`: an optional sign, decimal digits, and a value that fits in 64 bits. */
  function Atoi(s: string): Option<int> {
    if s != "" && s[0] == '-' then
      match Digits(s[1..])
      case None => None
      case Some(n) => if n <= MAX_INT64 + 1 then Some(0 - n as int) else None
    else
      match Digits(if s != "" && s[0] == '+' then s[1..] else s)
      case None => None
      case Some(n) => if n <= MAX_INT64 then Some(n) else None
  }
}
