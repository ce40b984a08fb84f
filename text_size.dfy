/**
 * Text measurement of tktui/widgets/utils.py: the number of rows and columns
 * a piece of text occupies once surrounding whitespace is stripped and the
 * rest is split into lines on "\n".
 */
module TextSize {

  /** A measured size; the source returns it as the tuple `(rows, cols)`. */
  datatype Size = Size(rows: nat, cols: nat)

  /** Python's `str.isspace` for a single character. */
  predicate IsSpace(c: char) {
    var n := c as int;
    || 9 <= n <= 13
    || 28 <= n <= 32
    || n == 0x85 || n == 0xA0 || n == 0x1680
    || 0x2000 <= n <= 0x200A
    || n == 0x2028 || n == 0x2029 || n == 0x202F || n == 0x205F || n == 0x3000
  }

  predicate AllSpace(s: string) {
    forall i :: 0 <= i < |s| ==> IsSpace(s[i])
  }

  /** Python's `str.lstrip()`: drop the whitespace at the front. */
  function TrimStart(s: string): (r: string)
    ensures |r| <= |s| && r == s[|s| - |r|..]
    ensures AllSpace(s[..|s| - |r|])
    ensures r == "" <==> AllSpace(s)
    ensures r != "" ==> !IsSpace(r[0])
    decreases |s|
  {
    if s != [] && IsSpace(s[0]) then
      var r := TrimStart(s[1..]);
      assert AllSpace(s[1..]) ==> AllSpace(s) by {
        if AllSpace(s[1..]) {
          forall i | 1 <= i < |s| ensures IsSpace(s[i]) { assert s[i] == s[1..][i - 1]; }
        }
      }
      assert AllSpace(s[..|s| - |r|]) by {
        var dropped := s[1..][..|s| - 1 - |r|];
        forall i | 1 <= i < |s| - |r| ensures IsSpace(s[i]) { assert s[i] == dropped[i - 1]; }
      }
      r
    else s
  }

  /** Python's `str.rstrip()`: drop the whitespace at the back. */
  function TrimEnd(s: string): (r: string)
    ensures |r| <= |s| && r == s[..|r|]
    ensures AllSpace(s[|r|..])
    ensures r == "" <==> AllSpace(s)
    ensures r != "" ==> !IsSpace(r[|r| - 1])
    decreases |s|
  {
    if s != [] && IsSpace(s[|s| - 1]) then
      var init := s[..|s| - 1];
      var r := TrimEnd(init);
      assert AllSpace(init) ==> AllSpace(s) by {
        if AllSpace(init) {
          forall i | 0 <= i < |s| - 1 ensures IsSpace(s[i]) { assert s[i] == init[i]; }
        }
      }
      r
    else s
  }

  /**
   * Python's `str.strip()`: empty exactly when `s` is all whitespace, and
   * otherwise starting and ending with a non-whitespace character.
   */
  function Strip(s: string): (r: string)
    ensures r == "" <==> AllSpace(s)
    ensures r != "" ==> !IsSpace(r[0]) && !IsSpace(r[|r| - 1])
  {
    var t := TrimStart(s);
    var r := TrimEnd(t);
    assert r != "" ==> r[0] == t[0];
    r
  }

  /** `strip()` cuts only whitespace, and only from the two ends of `s`. */
  lemma StripCutsSpace(s: string)
    ensures exists i, j :: 0 <= i <= j <= |s| && Strip(s) == s[i..j] && AllSpace(s[..i]) && AllSpace(s[j..])
  {
    var t := TrimStart(s);
    var i := |s| - |t|;
    var j := i + |Strip(s)|;
    assert Strip(s) == s[i..j];
    assert s[j..] == t[|Strip(s)|..];
  }

  /** The number of "\n" characters in `s`. */
  function NewlineCount(s: string): nat {
    if s == [] then 0 else (if s[0] == '\n' then 1 else 0) + NewlineCount(s[1..])
  }

  /** Python's `"\n".join(lines)`. */
  function JoinLines(lines: seq<string>): string {
    if |lines| == 0 then ""
    else if |lines| == 1 then lines[0]
    else lines[0] + "\n" + JoinLines(lines[1..])
  }

  /**
   * Python's `s.split("\n")`: one line more than there are separators, no line
   * holds a separator, and joining the lines back gives `s`.
   */
  function SplitLines(s: string): (lines: seq<string>)
    ensures |lines| == NewlineCount(s) + 1
    ensures forall k :: 0 <= k < |lines| ==> '\n' !in lines[k]
    ensures JoinLines(lines) == s
  {
    if s == [] then [""]
    else
      var rest := SplitLines(s[1..]);
      if s[0] == '\n' then
        assert s == "\n" + s[1..];
        [""] + rest
      else
        var lines := [[s[0]] + rest[0]] + rest[1..];
        assert lines[1..] == rest[1..];
        assert |rest| > 1 ==> JoinLines(rest) == rest[0] + "\n" + JoinLines(rest[1..]);
        assert s == [s[0]] + s[1..];
        lines
  }

  /** The longest length among `lines`, as `max(len(line) for line in lines)`. */
  function MaxLength(lines: seq<string>): (m: nat)
    requires |lines| > 0
    ensures forall k :: 0 <= k < |lines| ==> |lines[k]| <= m
    ensures exists k :: 0 <= k < |lines| && |lines[k]| == m
  {
    if |lines| == 1 then |lines[0]|
    else
      var m' := MaxLength(lines[1..]);
      assert forall k :: 1 <= k < |lines| ==> lines[k] == lines[1..][k - 1];
      if |lines[0]| >= m' then |lines[0]| else m'
  }

  /**
   * `calculate_text_size`: the empty string measures (0, 0); otherwise the
   * rows are the lines of the stripped text and the columns the longest of them.
   */
  function Measure(text: string): (size: Size)
    ensures text == "" ==> size == Size(0, 0)
    ensures text != "" ==> size.rows == NewlineCount(Strip(text)) + 1
    ensures text != "" ==> forall line :: line in SplitLines(Strip(text)) ==> |line| <= size.cols
    ensures text != "" ==> exists line :: line in SplitLines(Strip(text)) && |line| == size.cols
  {
    if text == "" then Size(0, 0)
    else
      var lines := SplitLines(Strip(text));
      Size(|lines|, MaxLength(lines))
  }

  lemma {:induction false} SplitLinesSingle(a: string)
    requires '\n' !in a
    ensures SplitLines(a) == [a]
    decreases |a|
  {
    if a != [] {
      SplitLinesSingle(a[1..]);
    }
  }

  lemma {:induction false} SplitLinesCons(a: string, b: string)
    requires '\n' !in a
    ensures SplitLines(a + "\n" + b) == [a] + SplitLines(b)
    decreases |a|
  {
    var s := a + "\n" + b;
    if a == [] {
      assert s[1..] == b;
    } else {
      assert s[1..] == a[1..] + "\n" + b;
      SplitLinesCons(a[1..], b);
      assert [a[0]] + a[1..] == a;
    }
  }

  /** Splitting undoes joining when no line holds a separator. */
  lemma {:induction false} SplitJoin(lines: seq<string>)
    requires |lines| > 0
    requires forall k :: 0 <= k < |lines| ==> '\n' !in lines[k]
    ensures SplitLines(JoinLines(lines)) == lines
    decreases |lines|
  {
    if |lines| == 1 {
      SplitLinesSingle(lines[0]);
    } else {
      SplitJoin(lines[1..]);
      SplitLinesCons(lines[0], JoinLines(lines[1..]));
    }
  }

  lemma {:induction false} TrimStartAfterSpace(p: string, t: string)
    requires AllSpace(p)
    ensures TrimStart(p + t) == TrimStart(t)
    decreases |p|
  {
    if p == [] {
      assert p + t == t;
    } else {
      assert (p + t)[0] == p[0];
      assert (p + t)[1..] == p[1..] + t;
      TrimStartAfterSpace(p[1..], t);
    }
  }

  lemma {:induction false} TrimStartBeforeAny(t: string, q: string)
    requires !AllSpace(t)
    ensures TrimStart(t + q) == TrimStart(t) + q
    decreases |t|
  {
    assert (t + q)[0] == t[0];
    if IsSpace(t[0]) {
      assert (t + q)[1..] == t[1..] + q;
      var k :| 0 <= k < |t| && !IsSpace(t[k]);
      assert t[1..][k - 1] == t[k];
      TrimStartBeforeAny(t[1..], q);
    }
  }

  lemma {:induction false} TrimEndBeforeSpace(t: string, q: string)
    requires AllSpace(q)
    ensures TrimEnd(t + q) == TrimEnd(t)
    decreases |q|
  {
    if q == [] {
      assert t + q == t;
    } else {
      var q' := q[..|q| - 1];
      assert (t + q)[|t + q| - 1] == q[|q| - 1];
      assert (t + q)[..|t + q| - 1] == t + q';
      TrimEndBeforeSpace(t, q');
    }
  }

  /** Whitespace around a text does not change what `strip` leaves. */
  lemma StripIgnoresSurroundingSpace(p: string, t: string, q: string)
    requires AllSpace(p) && AllSpace(q)
    ensures Strip(p + t + q) == Strip(t)
  {
    assert p + t + q == p + (t + q);
    TrimStartAfterSpace(p, t + q);
    if AllSpace(t) {
      TrimStartAfterSpace(t, q);
    } else {
      TrimStartBeforeAny(t, q);
      TrimEndBeforeSpace(TrimStart(t), q);
    }
  }

  /** Leading and trailing whitespace, newlines included, does not change the measure. */
  lemma MeasureIgnoresSurroundingSpace(p: string, t: string, q: string)
    requires AllSpace(p) && AllSpace(q) && t != ""
    ensures Measure(p + t + q) == Measure(t)
  {
    StripIgnoresSurroundingSpace(p, t, q);
  }

  /** A non-empty text made only of whitespace measures one empty row. */
  lemma MeasureAllSpace(s: string)
    requires s != "" && AllSpace(s)
    ensures Measure(s) == Size(1, 0)
  {
  }

  /** One line with no newline and no surrounding whitespace measures (1, its length). */
  lemma MeasureSingleLine(s: string)
    requires s != "" && '\n' !in s
    requires !IsSpace(s[0]) && !IsSpace(s[|s| - 1])
    ensures Measure(s) == Size(1, |s|)
  {
    assert TrimStart(s) == s && TrimEnd(s) == s;
    SplitLinesSingle(s);
  }
}
