/**
 * The JavaScript string built-ins the server relies on (`includes`, `split`,
 * `join`, `replace`, `trim`, `substring`, `toLowerCase`), written over
 * `seq<char>` with the properties the rest of the model needs.
 */
module JsString {
  import opened Common

  /** JavaScript truthiness of a value that is a string or undefined: present and not "". */
  predicate Truthy(s: Option<string>)
  {
    s.Some? && s.value != ""
  }

  predicate IsPrefix(p: string, s: string)
  {
    |p| <= |s| && s[..|p|] == p
  }

  /** `p` occurs in `s` starting at index `k`. */
  predicate OccursAt(s: string, p: string, k: nat)
  {
    k + |p| <= |s| && s[k..k + |p|] == p
  }

  /** `s.includes(p)` */
  predicate Contains(s: string, p: string)
    decreases |s|
  {
    IsPrefix(p, s) || (|s| > 0 && Contains(s[1..], p))
  }

  lemma {:induction false} ContainsAt(s: string, p: string)
    ensures Contains(s, p) <==> exists k: nat :: OccursAt(s, p, k)
    decreases |s|
  {
    if Contains(s, p) {
      if IsPrefix(p, s) {
        assert OccursAt(s, p, 0);
      } else {
        ContainsAt(s[1..], p);
        var k: nat :| OccursAt(s[1..], p, k);
        assert s[1..][k..k + |p|] == s[k + 1..k + 1 + |p|];
        assert OccursAt(s, p, k + 1);
      }
    }
    if exists k: nat :: OccursAt(s, p, k) {
      var k: nat :| OccursAt(s, p, k);
      if k == 0 {
        assert IsPrefix(p, s);
      } else {
        assert s[1..][k - 1..k - 1 + |p|] == s[k..k + |p|];
        assert OccursAt(s[1..], p, k - 1);
        ContainsAt(s[1..], p);
      }
    }
  }

  /** Whatever occurs in a slice of `s` occurs in `s`. */
  lemma ContainsSlice(s: string, i: nat, j: nat, p: string)
    requires i <= j <= |s|
    requires Contains(s[i..j], p)
    ensures Contains(s, p)
  {
    ContainsAt(s[i..j], p);
    var k: nat :| OccursAt(s[i..j], p, k);
    var u := s[i..j];
    var a, b := u[k..k + |p|], s[i + k..i + k + |p|];
    assert forall m :: 0 <= m < |p| ==> a[m] == b[m];
    assert a == b;
    assert OccursAt(s, p, i + k);
    ContainsAt(s, p);
  }

  /** Containment is transitive. */
  lemma ContainsTrans(s: string, a: string, p: string)
    requires Contains(s, a) && Contains(a, p)
    ensures Contains(s, p)
  {
    ContainsAt(s, a);
    var i: nat :| OccursAt(s, a, i);
    assert s[i..i + |a|] == a;
    ContainsSlice(s, i, i + |a|, p);
  }

  /** `a + p + b` contains `p`: a template that splices a value in mentions it. */
  lemma ContainsInfix(a: string, p: string, b: string)
    ensures Contains(a + p + b, p)
  {
    var s := a + p + b;
    assert s[|a|..|a| + |p|] == p;
    assert OccursAt(s, p, |a|);
    ContainsAt(s, p);
  }

  /** A concatenation contains both of its parts. */
  lemma ContainsEnds(x: string, y: string)
    ensures Contains(x + y, x) && Contains(x + y, y)
  {
    var s := x + y;
    assert OccursAt(s, x, 0);
    assert s[|x|..|x| + |y|] == y;
    assert OccursAt(s, y, |x|);
    ContainsAt(s, x);
    ContainsAt(s, y);
  }

  lemma {:induction false} NotContainsLonger(s: string, p: string)
    requires |s| < |p|
    ensures !Contains(s, p)
    decreases |s|
  {
    if |s| > 0 {
      NotContainsLonger(s[1..], p);
    }
  }

  // ---------------------------------------------------------------------
  // toLowerCase, on the ASCII letters

  function LowerChar(c: char): (r: char)
    ensures r == ' ' <==> c == ' '
  {
    if 'A' <= c <= 'Z' then (c as int + 32) as char else c
  }

  /** `s.toLowerCase()`, mapping 'A'..'Z' to 'a'..'z' and keeping every other character. */
  function ToLower(s: string): (r: string)
    ensures |r| == |s|
    ensures forall i :: 0 <= i < |s| ==> r[i] == LowerChar(s[i])
  {
    seq(|s|, i requires 0 <= i < |s| => LowerChar(s[i]))
  }

  /** Equality under a case-insensitive comparison (the `i` flag of a RegExp). */
  predicate EqualsIgnoringCase(a: string, b: string)
  {
    ToLower(a) == ToLower(b)
  }

  // ---------------------------------------------------------------------
  // split(' ') and join(sep)

  /** `s.split(sep)` for a one-character separator: never empty, "" gives [""]. */
  function Split(s: string, sep: char): (r: seq<string>)
    ensures |r| >= 1
    ensures forall w :: w in r ==> sep !in w
    decreases |s|
  {
    if s == [] then [""]
    else
      var rest := Split(s[1..], sep);
      if s[0] == sep then [""] + rest
      else [[s[0]] + rest[0]] + rest[1..]
  }

  /** `ws.join(sep)` */
  function Join(ws: seq<string>, sep: string): string
    decreases |ws|
  {
    if ws == [] then ""
    else if |ws| == 1 then ws[0]
    else ws[0] + sep + Join(ws[1..], sep)
  }

  /** Splitting and joining back with the same separator gives the original string. */
  lemma {:induction false} JoinSplit(s: string, sep: char)
    ensures Join(Split(s, sep), [sep]) == s
    decreases |s|
  {
    if s != [] {
      var rest := Split(s[1..], sep);
      JoinSplit(s[1..], sep);
      if s[0] == sep {
        assert Split(s, sep) == [""] + rest;
        assert ([""] + rest)[1..] == rest;
      } else {
        var ws := [[s[0]] + rest[0]] + rest[1..];
        assert Split(s, sep) == ws;
        if |rest| == 1 {
          assert Join(rest, [sep]) == rest[0];
        } else {
          assert ws[1..] == rest[1..];
          assert Join(rest, [sep]) == rest[0] + [sep] + Join(rest[1..], [sep]);
        }
      }
    }
  }

  /** Every word of a join occurs in the joined string. */
  lemma {:induction false} JoinContains(ws: seq<string>, sep: string, k: nat)
    requires k < |ws|
    ensures Contains(Join(ws, sep), ws[k])
    decreases |ws|
  {
    if |ws| == 1 {
      ContainsInfix("", ws[0], "");
      assert "" + ws[0] + "" == ws[0];
    } else {
      var rest := Join(ws[1..], sep);
      var j := Join(ws, sep);
      assert j == ws[0] + sep + rest;
      if k == 0 {
        ContainsInfix("", ws[0], sep + rest);
        assert j == "" + ws[0] + (sep + rest);
      } else {
        JoinContains(ws[1..], sep, k - 1);
        assert j[|ws[0]| + |sep|..|j|] == rest;
        ContainsSlice(j, |ws[0]| + |sep|, |j|, ws[k]);
      }
    }
  }

  /** A string without the separator is one word. */
  lemma {:induction false} SplitWord(a: string, sep: char)
    requires sep !in a
    ensures Split(a, sep) == [a]
    decreases |a|
  {
    if a != [] {
      assert a[0] in a;
      assert forall c :: c in a[1..] ==> c in a;
      SplitWord(a[1..], sep);
      assert a == [a[0]] + a[1..];
    }
  }

  /** Splitting at the first separator: the word before it, then the split of the rest. */
  lemma {:induction false} SplitAtSeparator(a: string, b: string, sep: char)
    requires sep !in a
    ensures Split(a + [sep] + b, sep) == [a] + Split(b, sep)
    decreases |a|
  {
    if a == [] {
      assert a + [sep] + b == [sep] + b;
      assert ([sep] + b)[1..] == b;
    } else {
      var s := a + [sep] + b;
      assert s[1..] == a[1..] + [sep] + b;
      assert a[0] in a;
      assert forall c :: c in a[1..] ==> c in a;
      SplitAtSeparator(a[1..], b, sep);
      assert a == [a[0]] + a[1..];
    }
  }

  /** Joining words that lack the separator and splitting again gives the words back. */
  lemma {:induction false} SplitJoin(ws: seq<string>, sep: char)
    requires |ws| >= 1
    requires forall k :: 0 <= k < |ws| ==> sep !in ws[k]
    ensures Split(Join(ws, [sep]), sep) == ws
    decreases |ws|
  {
    if |ws| == 1 {
      SplitWord(ws[0], sep);
    } else {
      SplitJoin(ws[1..], sep);
      SplitAtSeparator(ws[0], Join(ws[1..], [sep]), sep);
      assert ws == [ws[0]] + ws[1..];
    }
  }

  /** Joining two non-empty lists is joining their joins. */
  lemma {:induction false} JoinAppend(xs: seq<string>, ys: seq<string>, sep: string)
    requires xs != [] && ys != []
    ensures Join(xs + ys, sep) == Join(xs, sep) + sep + Join(ys, sep)
    decreases |xs|
  {
    if |xs| == 1 {
      assert (xs + ys)[1..] == ys;
    } else {
      assert (xs + ys)[1..] == xs[1..] + ys;
      JoinAppend(xs[1..], ys, sep);
    }
  }

  // ---------------------------------------------------------------------
  // replace(p, "") and replace(/p/g, "")

  /** `s.replace(p, "")` with a string pattern: drops the first occurrence only. */
  function RemoveFirst(s: string, p: string): (r: string)
    ensures !Contains(s, p) ==> r == s
    ensures Contains(s, p) ==> |r| == |s| - |p|
    decreases |s|
  {
    if IsPrefix(p, s) then s[|p|..]
    else if s == [] then s
    else [s[0]] + RemoveFirst(s[1..], p)
  }

  /** No occurrence can start inside a prefix that lacks the pattern's first character. */
  lemma {:induction false} RemoveFirstSkips(a: string, b: string, p: string)
    requires p != [] && p[0] !in a
    ensures RemoveFirst(a + b, p) == a + RemoveFirst(b, p)
    decreases |a|
  {
    if a != [] {
      var s := a + b;
      assert a == [a[0]] + a[1..];
      assert s[0] == a[0] && a[0] != p[0];
      assert !IsPrefix(p, s);
      assert s[1..] == a[1..] + b;
      assert p[0] !in a[1..];
      RemoveFirstSkips(a[1..], b, p);
      assert RemoveFirst(s, p) == [s[0]] + RemoveFirst(s[1..], p);
      assert [a[0]] + (a[1..] + RemoveFirst(b, p)) == a + RemoveFirst(b, p);
    } else {
      assert a + b == b;
    }
  }

  /** The first occurrence is the one after a prefix lacking the pattern's first character. */
  lemma RemoveFirstAfter(a: string, p: string, b: string)
    requires p != [] && p[0] !in a
    ensures RemoveFirst(a + p + b, p) == a + b
  {
    RemoveFirstSkips(a, p + b, p);
    assert a + p + b == a + (p + b);
    assert (p + b)[..|p|] == p;
    assert (p + b)[|p|..] == b;
  }

  /** `s.replace(/p/g, "")`: scans left to right and drops every non-overlapping occurrence. */
  function RemoveAll(s: string, p: string): string
    requires p != []
    decreases |s|
  {
    if |s| < |p| then s
    else if s[..|p|] == p then RemoveAll(s[|p|..], p)
    else [s[0]] + RemoveAll(s[1..], p)
  }

  /** Removing a pattern that does not occur changes nothing. */
  lemma {:induction false} RemoveAllAbsent(s: string, p: string)
    requires p != []
    requires !Contains(s, p)
    ensures RemoveAll(s, p) == s
    decreases |s|
  {
    if |s| >= |p| {
      assert !IsPrefix(p, s);
      RemoveAllAbsent(s[1..], p);
      assert s == [s[0]] + s[1..];
    }
  }

  /** A string that has no backtick has no occurrence of a pattern made of backticks. */
  lemma {:induction false} NoTickNoPattern(s: string, p: string)
    requires '`' !in s
    requires p != [] && p[0] == '`'
    ensures !Contains(s, p)
    decreases |s|
  {
    if |s| > 0 {
      assert s[0] in s;
      assert !IsPrefix(p, s);
      assert forall c :: c in s[1..] ==> c in s;
      NoTickNoPattern(s[1..], p);
    }
  }

  const Fence: string := "```"

  /** After removing every fence, a leading backtick came from a leading backtick. */
  lemma FenceFreeLeadingOne(t: string)
    requires IsPrefix("`", RemoveAll(t, Fence))
    ensures IsPrefix("`", t)
  {
  }

  /** After removing every fence, two leading backticks came from two leading backticks. */
  lemma FenceFreeLeadingTwo(t: string)
    ensures !IsPrefix("``", t) ==> !IsPrefix("``", RemoveAll(t, Fence))
  {
    if |t| >= 3 && t[..3] != Fence && IsPrefix("``", RemoveAll(t, Fence)) {
      var rest := RemoveAll(t[1..], Fence);
      assert RemoveAll(t, Fence) == [t[0]] + rest;
      assert RemoveAll(t, Fence)[1] == rest[0];
      assert rest[..1] == "`";
      FenceFreeLeadingOne(t[1..]);
      assert t[..2] == "``";
    }
  }

  /** `s.replace(/```/g, '')` leaves no fence behind, however the backticks were grouped. */
  lemma {:induction false} RemoveAllFenceFree(s: string)
    ensures !Contains(RemoveAll(s, Fence), Fence)
    decreases |s|
  {
    var r := RemoveAll(s, Fence);
    if |s| < 3 {
      NotContainsLonger(s, Fence);
    } else if s[..3] == Fence {
      RemoveAllFenceFree(s[3..]);
    } else {
      var rest := RemoveAll(s[1..], Fence);
      RemoveAllFenceFree(s[1..]);
      assert r == [s[0]] + rest;
      assert r[1..] == rest;
      if s[0] == '`' {
        assert s[..3] == [s[0]] + s[1..][..2];
        assert !IsPrefix("``", s[1..]);
        FenceFreeLeadingTwo(s[1..]);
        assert !IsPrefix("``", rest);
        if |rest| >= 2 {
          assert r[..3] == [r[0]] + rest[..2];
        }
      }
    }
  }

  // ---------------------------------------------------------------------
  // trim()

  /** The characters `String.prototype.trim` strips: WhiteSpace and LineTerminator. */
  predicate IsSpace(c: char)
  {
    c == ' ' || c == '\t' || c == '\n' || c == '\r' || c == '\U{000B}' || c == '\U{000C}'
    || c == '\U{00A0}' || c == '\U{1680}' || ('\U{2000}' <= c <= '\U{200A}')
    || c == '\U{2028}' || c == '\U{2029}' || c == '\U{202F}' || c == '\U{205F}'
    || c == '\U{3000}' || c == '\U{FEFF}'
  }

  /** No white space at either end. */
  predicate IsTrimmed(s: string)
  {
    s == [] || (!IsSpace(s[0]) && !IsSpace(s[|s| - 1]))
  }

  function TrimStart(s: string): (r: string)
    ensures |r| <= |s| && r == s[|s| - |r|..]
    ensures r == [] || !IsSpace(r[0])
    decreases |s|
  {
    if s != [] && IsSpace(s[0]) then TrimStart(s[1..]) else s
  }

  function TrimEnd(s: string): (r: string)
    ensures |r| <= |s| && r == s[..|r|]
    ensures r == [] || !IsSpace(r[|r| - 1])
    decreases |s|
  {
    if s != [] && IsSpace(s[|s| - 1]) then TrimEnd(s[..|s| - 1]) else s
  }

  /** `s.trim()` */
  function Trim(s: string): (r: string)
    ensures IsTrimmed(r)
    ensures |r| <= |s|
  {
    TrimEnd(TrimStart(s))
  }

  /** The trimmed string is a contiguous slice of the original. */
  lemma TrimSlice(s: string) returns (i: nat, j: nat)
    ensures i <= j <= |s| && Trim(s) == s[i..j]
  {
    var t := TrimStart(s);
    var r := TrimEnd(t);
    assert r == Trim(s);
    i := |s| - |t|;
    assert t == s[i..];
    j := i + |r|;
    assert r == t[..|r|];
    assert s[i..][..|r|] == s[i..j];
  }

  /** Trimming keeps a string that has no white space at either end. */
  lemma TrimKeepsTrimmed(s: string)
    requires IsTrimmed(s)
    ensures Trim(s) == s
  {
  }

  lemma TrimIdempotent(s: string)
    ensures Trim(Trim(s)) == Trim(s)
  {
    TrimKeepsTrimmed(Trim(s));
  }

  // ---------------------------------------------------------------------
  // substring(0, n)

  /** `s.substring(0, n)`: the first `n` characters, or all of `s` when it is shorter. */
  function Take(s: string, n: nat): (r: string)
    ensures |r| == if |s| <= n then |s| else n
    ensures IsPrefix(r, s)
  {
    if |s| <= n then s else s[..n]
  }
}
