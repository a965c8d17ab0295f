/** The string operations the hostname logic uses: `includes`, `split(c)` and `join(c)`. */
module Text {

  /** `sub` occurs in `s` starting at index `i`. */
  predicate OccursAt(s: string, sub: string, i: int) {
    0 <= i && i + |sub| <= |s| && s[i..i + |sub|] == sub
  }

  /** `s.includes(sub)`. */
  predicate Contains(s: string, sub: string) {
    exists i | 0 <= i <= |s| - |sub| :: OccursAt(s, sub, i)
  }

  /** `s.split(c)` for a one-character separator: never empty; "" splits into [""]. */
  function Split(s: string, c: char): (parts: seq<string>)
    ensures |parts| >= 1
    ensures forall k :: 0 <= k < |parts| ==> c !in parts[k]
  {
    if s == [] then [""]
    else
      var rest := Split(s[1..], c);
      if s[0] == c then [""] + rest
      else [[s[0]] + rest[0]] + rest[1..]
  }

  /** `parts.join(c)`. */
  function Join(parts: seq<string>, c: char): string {
    if |parts| == 0 then ""
    else if |parts| == 1 then parts[0]
    else parts[0] + [c] + Join(parts[1..], c)
  }

  /** Splitting and joining on the same separator gives back the string. */
  lemma {:induction false} JoinSplit(s: string, c: char)
    ensures Join(Split(s, c), c) == s
  {
    if s != [] {
      var rest := Split(s[1..], c);
      JoinSplit(s[1..], c);
      if s[0] == c {
        assert Split(s, c) == [""] + rest;
        assert (([""] + rest)[1..]) == rest;
      } else {
        var parts := [[s[0]] + rest[0]] + rest[1..];
        assert Split(s, c) == parts;
        if |rest| == 1 {
          assert Join(parts, c) == [s[0]] + rest[0];
        } else {
          assert parts[1..] == rest[1..];
          assert Join(rest, c) == rest[0] + [c] + Join(rest[1..], c);
        }
      }
    }
  }

  /** A string splits into a single part exactly when the separator does not occur in it. */
  lemma {:induction false} SplitSingle(s: string, c: char)
    ensures |Split(s, c)| == 1 <==> c !in s
  {
    if s != [] {
      SplitSingle(s[1..], c);
      assert c in s <==> s[0] == c || c in s[1..] by {
        if c in s[1..] { var k :| 0 <= k < |s[1..]| && s[1..][k] == c; assert s[k + 1] == c; }
        if c in s { var k :| 0 <= k < |s| && s[k] == c; if k > 0 { assert s[1..][k - 1] == c; } }
      }
    }
  }

  /** `s.split(c)[0]`: the text before the first separator. */
  function FirstPart(s: string, c: char): (r: string)
    ensures c !in r
  {
    Split(s, c)[0]
  }

  /** `s.split(c).slice(1).join(c)`: the text after the first separator. */
  function AfterFirst(s: string, c: char): string {
    Join(Split(s, c)[1..], c)
  }

  /** Splitting `a + c + b`, where `a` has no separator, gives `a` and then the parts of `b`. */
  lemma {:induction false} SplitAtFirst(a: string, b: string, c: char)
    requires c !in a
    ensures Split(a + [c] + b, c)[0] == a
    ensures Split(a + [c] + b, c)[1..] == Split(b, c)
  {
    var s := a + [c] + b;
    if a == [] {
      assert s[0] == c && s[1..] == b;
    } else {
      assert s[0] == a[0] && s[1..] == a[1..] + [c] + b;
      SplitAtFirst(a[1..], b, c);
    }
  }

  /** A string is its first part, then (if the separator occurs) the separator and the rest;
      without a separator the rest is empty. */
  lemma FirstPartAndRest(s: string, c: char)
    ensures c in s ==> s == FirstPart(s, c) + [c] + AfterFirst(s, c)
    ensures c !in s ==> FirstPart(s, c) == s && AfterFirst(s, c) == ""
  {
    var parts := Split(s, c);
    JoinSplit(s, c);
    SplitSingle(s, c);
    if |parts| == 1 {
      assert parts[1..] == [];
    }
  }
}
