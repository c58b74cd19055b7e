/**
 * The point-cloud example (examples/bevy_pointcloud_bunny.rs): an ASCII PCD
 * reader that turns each data line into one white, nearly transparent unit
 * cube instance, and the setup that sorts the instances by opacity, most
 * opaque first, and keeps at most two million of them.
 */
module PointCloud {
  import opened Wrappers
  import opened StableSort
  import opened VoxelPlot

  /** Rust's `char::is_whitespace`: the Unicode `White_Space` property. */
  predicate IsWhitespace(c: char) {
    || ('\U{9}' <= c <= '\U{D}')
    || c == '\U{20}' || c == '\U{85}' || c == '\U{A0}' || c == '\U{1680}'
    || ('\U{2000}' <= c <= '\U{200A}')
    || c == '\U{2028}' || c == '\U{2029}' || c == '\U{202F}' || c == '\U{205F}' || c == '\U{3000}'
  }

  /** Every character of `s` is whitespace. */
  predicate AllWhitespace(s: string) {
    forall k :: 0 <= k < |s| ==> IsWhitespace(s[k])
  }

  /** `str::trim_start`: drops the leading whitespace. */
  function TrimStart(s: string): string {
    if |s| > 0 && IsWhitespace(s[0]) then TrimStart(s[1..]) else s
  }

  /** `str::trim_end`: drops the trailing whitespace. */
  function TrimEnd(s: string): string {
    if |s| > 0 && IsWhitespace(s[|s| - 1]) then TrimEnd(s[..|s| - 1]) else s
  }

  /** `str::trim`: drops whitespace at both ends. */
  function Trim(s: string): string {
    TrimEnd(TrimStart(s))
  }

  /** `TrimStart` removes exactly the leading whitespace: what it drops is whitespace and what it keeps does not start with any. */
  lemma {:induction false} TrimStartSpec(s: string)
    ensures var r := TrimStart(s);
      && |r| <= |s| && r == s[|s| - |r|..]
      && AllWhitespace(s[..|s| - |r|])
      && (|r| > 0 ==> !IsWhitespace(r[0]))
  {
    if |s| > 0 && IsWhitespace(s[0]) {
      TrimStartSpec(s[1..]);
      var r := TrimStart(s);
      assert s[1..][|s| - 1 - |r|..] == s[|s| - |r|..];
      forall k | 0 <= k < |s| - |r| ensures IsWhitespace(s[k]) {
        if k > 0 {
          assert s[k] == s[1..][..|s| - 1 - |r|][k - 1];
        }
      }
    }
  }

  /** `TrimEnd` removes exactly the trailing whitespace. */
  lemma {:induction false} TrimEndSpec(s: string)
    ensures var r := TrimEnd(s);
      && |r| <= |s| && r == s[..|r|]
      && AllWhitespace(s[|r|..])
      && (|r| > 0 ==> !IsWhitespace(r[|r| - 1]))
  {
    if |s| > 0 && IsWhitespace(s[|s| - 1]) {
      var s' := s[..|s| - 1];
      TrimEndSpec(s');
      var r := TrimEnd(s);
      assert s'[..|r|] == s[..|r|];
      forall k | |r| <= k < |s| ensures IsWhitespace(s[k]) {
        if k < |s| - 1 {
          assert s[k] == s'[|r|..][k - |r|];
        }
      }
    }
  }

  /** The trimmed line neither starts nor ends with whitespace. */
  lemma TrimSpec(s: string)
    ensures |Trim(s)| <= |s|
    ensures |Trim(s)| > 0 ==> !IsWhitespace(Trim(s)[0]) && !IsWhitespace(Trim(s)[|Trim(s)| - 1])
  {
    var t := TrimStart(s);
    TrimStartSpec(s);
    TrimEndSpec(t);
    var r := TrimEnd(t);
    if |r| > 0 {
      assert r[0] == t[0];
    }
  }

  /** A line is blank after trimming exactly when it is all whitespace. */
  lemma TrimEmptyIffBlank(s: string)
    ensures Trim(s) == "" <==> AllWhitespace(s)
  {
    var t := TrimStart(s);
    TrimStartSpec(s);
    TrimEndSpec(t);
    if |t| > 0 {
      assert t[0] == s[|s| - |t|];
      assert !IsWhitespace(t[0..][0]);
    } else {
      assert s[..|s|] == s;
    }
  }

  /** The length of the run of non-whitespace characters at the front of `s`. */
  function TokenLength(s: string): (n: nat)
    ensures n <= |s|
    ensures |s| > 0 && !IsWhitespace(s[0]) ==> n > 0
  {
    if |s| == 0 || IsWhitespace(s[0]) then 0 else 1 + TokenLength(s[1..])
  }

  /** The run `TokenLength` measures is non-whitespace and ends at whitespace or at the end. */
  lemma {:induction false} TokenLengthSpec(s: string)
    ensures forall k :: 0 <= k < TokenLength(s) ==> !IsWhitespace(s[k])
    ensures TokenLength(s) == |s| || IsWhitespace(s[TokenLength(s)])
  {
    if |s| > 0 && !IsWhitespace(s[0]) {
      TokenLengthSpec(s[1..]);
      forall k | 0 < k < TokenLength(s) ensures !IsWhitespace(s[k]) {
        assert s[k] == s[1..][k - 1];
      }
    }
  }

  /** `str::split_whitespace`: the maximal runs of non-whitespace characters, in order. */
  function SplitWhitespace(s: string): seq<string>
    decreases |s|
  {
    if |s| == 0 then []
    else if IsWhitespace(s[0]) then SplitWhitespace(s[1..])
    else
      var n := TokenLength(s);
      [s[..n]] + SplitWhitespace(s[n..])
  }

  /** The characters of `s` that are not whitespace. */
  function NonWhitespace(s: string): string {
    if |s| == 0 then "" else (if IsWhitespace(s[0]) then "" else [s[0]]) + NonWhitespace(s[1..])
  }

  /** The tokens laid end to end. */
  function Concat(tokens: seq<string>): string {
    if |tokens| == 0 then "" else tokens[0] + Concat(tokens[1..])
  }

  /** A sequence of non-empty strings without whitespace. */
  predicate AreWords(tokens: seq<string>) {
    forall k :: 0 <= k < |tokens| ==> |tokens[k]| > 0 && forall m :: 0 <= m < |tokens[k]| ==> !IsWhitespace(tokens[k][m])
  }

  /** Every token is non-empty and free of whitespace. */
  lemma {:induction false} TokensAreWords(s: string)
    ensures AreWords(SplitWhitespace(s))
    decreases |s|
  {
    if |s| > 0 {
      if IsWhitespace(s[0]) {
        TokensAreWords(s[1..]);
      } else {
        var n := TokenLength(s);
        TokenLengthSpec(s);
        TokensAreWords(s[n..]);
        var r, r' := SplitWhitespace(s), SplitWhitespace(s[n..]);
        assert r == [s[..n]] + r';
        forall k | 0 < k < |r| ensures r[k] == r'[k - 1] {
        }
      }
    }
  }

  lemma {:induction false} NonWhitespaceAppend(a: string, b: string)
    ensures NonWhitespace(a + b) == NonWhitespace(a) + NonWhitespace(b)
  {
    if |a| > 0 {
      assert (a + b)[1..] == a[1..] + b;
      NonWhitespaceAppend(a[1..], b);
    } else {
      assert a + b == b;
    }
  }

  lemma {:induction false} NonWhitespaceOfToken(t: string)
    requires forall m :: 0 <= m < |t| ==> !IsWhitespace(t[m])
    ensures NonWhitespace(t) == t
  {
    if |t| > 0 {
      NonWhitespaceOfToken(t[1..]);
      assert t == [t[0]] + t[1..];
    }
  }

  /**
   * Splitting loses only whitespace: the tokens put back together are the
   * line with its whitespace removed.
   */
  lemma {:induction false} SplitWhitespaceKeepsText(s: string)
    ensures Concat(SplitWhitespace(s)) == NonWhitespace(s)
    decreases |s|
  {
    if |s| > 0 {
      if IsWhitespace(s[0]) {
        SplitWhitespaceKeepsText(s[1..]);
      } else {
        var n := TokenLength(s);
        TokenLengthSpec(s);
        var token, rest := s[..n], s[n..];
        assert s == token + rest;
        SplitWhitespaceKeepsText(rest);
        NonWhitespaceAppend(token, rest);
        NonWhitespaceOfToken(token);
        var r := SplitWhitespace(s);
        assert r[0] == token && r[1..] == SplitWhitespace(rest);
      }
    }
  }

  /** A line has no tokens exactly when it is all whitespace, that is, blank after trimming. */
  lemma {:induction false} NoTokensIffBlank(s: string)
    ensures SplitWhitespace(s) == [] <==> AllWhitespace(s)
    ensures SplitWhitespace(s) == [] <==> Trim(s) == ""
    decreases |s|
  {
    TrimEmptyIffBlank(s);
    if |s| > 0 {
      if IsWhitespace(s[0]) {
        NoTokensIffBlank(s[1..]);
        if AllWhitespace(s[1..]) {
          forall k | 0 <= k < |s| ensures IsWhitespace(s[k]) {
            if k > 0 {
              assert s[k] == s[1..][k - 1];
            }
          }
        } else {
          var k :| 0 <= k < |s[1..]| && !IsWhitespace(s[1..][k]);
          assert s[k + 1] == s[1..][k];
        }
      }
    }
  }

  /** Position `k` of `s` starts a token: a non-whitespace character at the front or after whitespace. */
  predicate IsTokenStart(s: string, k: nat)
    requires k < |s|
  {
    !IsWhitespace(s[k]) && (k == 0 || IsWhitespace(s[k - 1]))
  }

  /** The number of token starts among the first `n` positions of `s`. */
  function TokenStarts(s: string, n: nat): nat
    requires n <= |s|
  {
    if n == 0 then 0 else TokenStarts(s, n - 1) + (if IsTokenStart(s, n - 1) then 1 else 0)
  }

  /** The run of non-whitespace characters that begins at position `p`. */
  function TokenAt(s: string, p: nat): string
    requires p <= |s|
  {
    s[p..p + TokenLength(s[p..])]
  }

  /** Counting token starts across a cut at `d` that splits no token. */
  lemma {:induction false} TokenStartsSplit(s: string, d: nat, m: nat)
    requires d + m <= |s|
    requires d == 0 || d == |s| || IsWhitespace(s[d - 1]) || IsWhitespace(s[d])
    ensures TokenStarts(s, d + m) == TokenStarts(s, d) + TokenStarts(s[d..], m)
  {
    if m > 0 {
      TokenStartsSplit(s, d, m - 1);
      var k := m - 1;
      assert s[d..][k] == s[d + k];
      if k > 0 {
        assert s[d..][k - 1] == s[d + k - 1];
      }
    }
  }

  /** Within the first token only its first position is a start. */
  lemma {:induction false} TokenStartsInFirstToken(s: string, m: nat)
    requires 0 < m <= TokenLength(s)
    ensures TokenStarts(s, m) == 1
  {
    TokenLengthSpec(s);
    if m > 1 {
      TokenStartsInFirstToken(s, m - 1);
      assert !IsWhitespace(s[m - 2]);
    }
  }

  /** `split_whitespace` yields exactly one token per token start. */
  lemma {:induction false} SplitWhitespaceCountsStarts(s: string)
    ensures |SplitWhitespace(s)| == TokenStarts(s, |s|)
    decreases |s|
  {
    if |s| > 0 {
      if IsWhitespace(s[0]) {
        SplitWhitespaceCountsStarts(s[1..]);
        TokenStartsSplit(s, 1, |s| - 1);
      } else {
        var n := TokenLength(s);
        TokenLengthSpec(s);
        SplitWhitespaceCountsStarts(s[n..]);
        TokenStartsSplit(s, n, |s| - n);
        TokenStartsInFirstToken(s, n);
      }
    }
  }

  /**
   * The tokens are the maximal runs of non-whitespace characters, in order:
   * the token numbered by the count of starts before `p` is the run at `p`.
   */
  lemma {:induction false} SplitWhitespaceTokenAt(s: string, p: nat)
    requires p < |s| && IsTokenStart(s, p)
    ensures TokenStarts(s, p) < |SplitWhitespace(s)|
    ensures SplitWhitespace(s)[TokenStarts(s, p)] == TokenAt(s, p)
    decreases |s|, 1
  {
    if IsWhitespace(s[0]) {
      TokenAtAfterSpace(s, p);
    } else if p == 0 {
      assert s[0..] == s;
    } else {
      TokenAtAfterToken(s, p);
    }
  }

  /** `SplitWhitespaceTokenAt` when `s` starts with whitespace: drop that character. */
  lemma {:induction false} TokenAtAfterSpace(s: string, p: nat)
    requires p < |s| && IsTokenStart(s, p) && IsWhitespace(s[0])
    ensures TokenStarts(s, p) < |SplitWhitespace(s)|
    ensures SplitWhitespace(s)[TokenStarts(s, p)] == TokenAt(s, p)
    decreases |s|, 0
  {
    var t := s[1..];
    assert t[p - 1] == s[p];
    if p > 1 {
      assert t[p - 2] == s[p - 1];
    }
    SplitWhitespaceTokenAt(t, p - 1);
    TokenStartsSplit(s, 1, p - 1);
    assert s[p..] == t[p - 1..];
    assert TokenAt(s, p) == TokenAt(t, p - 1);
    assert SplitWhitespace(s) == SplitWhitespace(t);
  }

  /** `SplitWhitespaceTokenAt` for a later start when `s` starts with a token: drop that token. */
  lemma {:induction false} TokenAtAfterToken(s: string, p: nat)
    requires 0 < p < |s| && IsTokenStart(s, p) && !IsWhitespace(s[0])
    ensures TokenStarts(s, p) < |SplitWhitespace(s)|
    ensures SplitWhitespace(s)[TokenStarts(s, p)] == TokenAt(s, p)
    decreases |s|, 0
  {
    var n := TokenLength(s);
    TokenLengthSpec(s);
    assert p > n;
    var t := s[n..];
    assert t[p - n] == s[p] && t[p - n - 1] == s[p - 1];
    SplitWhitespaceTokenAt(t, p - n);
    TokenStartsSplit(s, n, p - n);
    TokenStartsInFirstToken(s, n);
    assert s[p..] == t[p - n..];
    assert TokenAt(s, p) == TokenAt(t, p - n);
    assert SplitWhitespace(s) == [s[..n]] + SplitWhitespace(t);
  }

  /** Lines the reader skips: an untrimmed `#` comment, or a line blank after trimming. */
  predicate IsSkippedLine(line: string) {
    (|line| > 0 && line[0] == '#') || Trim(line) == ""
  }

  /** The line that opens the data section. */
  predicate IsMarkerLine(line: string) {
    !IsSkippedLine(line) && Trim(line) == "DATA ascii"
  }

  /** A `DATA ascii` line occurs before line `i`, so the reader is in the data section at line `i`. */
  predicate DataStartedAt(lines: seq<string>, i: nat)
    requires i <= |lines|
  {
    exists j :: 0 <= j < i && IsMarkerLine(lines[j])
  }

  /** The reader turns `line` into an instance, given whether it is already in the data section. */
  predicate Accepts(line: string, inData: bool) {
    inData && !IsSkippedLine(line) && !IsMarkerLine(line) && |SplitWhitespace(line)| >= 3
  }

  /** The reader turns line `i` of the file into an instance. */
  predicate IsAcceptedLine(lines: seq<string>, i: nat)
    requires i < |lines|
  {
    Accepts(lines[i], DataStartedAt(lines, i))
  }

  /** `s.parse().unwrap_or(0.0)` for a float parser `parse`. */
  function ParseOr0(parse: string -> Option<real>, token: string): (x: real)
    ensures parse(token).None? ==> x == 0.0
    ensures parse(token).Some? ==> x == parse(token).value
  {
    match parse(token)
    case None => 0.0
    case Some(v) => v
  }

  /**
   * `LinearRgba::from(Color::srgba(1.0, 1.0, 1.0, 0.01))`: the sRGB to linear
   * transfer maps 1.0 to 1.0 and leaves alpha alone.
   */
  const PointColor: Vec4 := Vec4(1.0, 1.0, 1.0, 0.01)

  /** The instance of a data line with tokens `tokens`: the first three are x, y, z, the rest are ignored. */
  function LineInstance(tokens: seq<string>, parse: string -> Option<real>): (r: InstanceData)
    requires |tokens| >= 3
    ensures r.posScale.x == ParseOr0(parse, tokens[0])
    ensures r.posScale.y == ParseOr0(parse, tokens[1])
    ensures r.posScale.z == ParseOr0(parse, tokens[2])
    ensures r.posScale.w == 1.0 && r.color == PointColor
  {
    InstanceData(Vec4(ParseOr0(parse, tokens[0]), ParseOr0(parse, tokens[1]), ParseOr0(parse, tokens[2]), 1.0), PointColor)
  }

  /** The instances the reader produces from `lines`, in file order. */
  function ParsedInstances(lines: seq<string>, parse: string -> Option<real>): seq<InstanceData> {
    if |lines| == 0 then []
    else
      var line := lines[|lines| - 1];
      ParsedInstances(lines[..|lines| - 1], parse)
        + (if IsAcceptedLine(lines, |lines| - 1) then [LineInstance(SplitWhitespace(line), parse)] else [])
  }

  /** The indices of the lines the reader accepts, in increasing order. */
  function AcceptedLines(lines: seq<string>): (r: seq<nat>)
    ensures forall a, b :: 0 <= a < b < |r| ==> r[a] < r[b]
    ensures forall k :: 0 <= k < |r| ==> r[k] < |lines| && IsAcceptedLine(lines, r[k])
  {
    if |lines| == 0 then []
    else
      var front := lines[..|lines| - 1];
      var prev := AcceptedLines(front);
      AcceptedInPrefix(lines, |lines| - 1);
      prev + (if IsAcceptedLine(lines, |lines| - 1) then [|lines| - 1] else [])
  }

  /** Every accepted line is listed. */
  lemma {:induction false} AcceptedLinesComplete(lines: seq<string>, i: nat)
    requires i < |lines| && IsAcceptedLine(lines, i)
    ensures i in AcceptedLines(lines)
  {
    var front := lines[..|lines| - 1];
    if i < |front| {
      AcceptedInPrefix(lines, |lines| - 1);
      assert IsAcceptedLine(front, i);
      AcceptedLinesComplete(front, i);
    }
  }

  /** Whether a line is accepted depends only on the lines up to it. */
  lemma AcceptedInPrefix(lines: seq<string>, n: nat)
    requires n <= |lines|
    ensures forall i :: 0 <= i < n ==> (IsAcceptedLine(lines[..n], i) <==> IsAcceptedLine(lines, i))
  {
    var front := lines[..n];
    forall i | 0 <= i < n ensures IsAcceptedLine(front, i) <==> IsAcceptedLine(lines, i) {
      assert front[i] == lines[i];
      assert DataStartedAt(front, i) <==> DataStartedAt(lines, i) by {
        if DataStartedAt(lines, i) {
          var j :| 0 <= j < i && IsMarkerLine(lines[j]);
          assert front[j] == lines[j];
        }
        if DataStartedAt(front, i) {
          var j :| 0 <= j < i && IsMarkerLine(front[j]);
          assert front[j] == lines[j];
        }
      }
    }
  }

  /**
   * Each accepted line yields exactly one instance, in file order: the output
   * has one instance per accepted line, made from that line's tokens.
   */
  lemma {:induction false} ParsedInstancesPerLine(lines: seq<string>, parse: string -> Option<real>)
    ensures var p, r := ParsedInstances(lines, parse), AcceptedLines(lines);
      && |p| == |r|
      && forall k :: 0 <= k < |r| ==> |SplitWhitespace(lines[r[k]])| >= 3 && p[k] == LineInstance(SplitWhitespace(lines[r[k]]), parse)
  {
    if |lines| > 0 {
      var front := lines[..|lines| - 1];
      ParsedInstancesPerLine(front, parse);
      var r' := AcceptedLines(front);
      assert forall k :: 0 <= k < |r'| ==> front[r'[k]] == lines[r'[k]];
    }
  }

  /** Without a `DATA ascii` line nothing is read: comments, the header and everything else are ignored. */
  lemma {:induction false} NoMarkerNoInstances(lines: seq<string>, parse: string -> Option<real>)
    requires forall j :: 0 <= j < |lines| ==> !IsMarkerLine(lines[j])
    ensures ParsedInstances(lines, parse) == []
  {
    if |lines| > 0 {
      var front := lines[..|lines| - 1];
      assert forall j :: 0 <= j < |front| ==> front[j] == lines[j];
      NoMarkerNoInstances(front, parse);
      assert !DataStartedAt(lines, |lines| - 1);
    }
  }

  /**
   * The instances read up to and including the first `DATA ascii` line are
   * none, so every instance comes from a line after it.
   */
  lemma NothingUpToFirstMarker(lines: seq<string>, marker: nat, parse: string -> Option<real>)
    requires marker < |lines| && IsMarkerLine(lines[marker])
    requires forall j :: 0 <= j < marker ==> !IsMarkerLine(lines[j])
    ensures ParsedInstances(lines[..marker + 1], parse) == []
  {
    var upTo := lines[..marker + 1];
    assert upTo[..marker] == lines[..marker];
    NoMarkerNoInstances(lines[..marker], parse);
    assert !IsSkippedLine(upTo[marker]);
  }

  /** Every instance read is a unit-scale cube in `PointColor`. */
  lemma {:induction false} ParsedInstancesAreUniform(lines: seq<string>, parse: string -> Option<real>)
    ensures forall k :: 0 <= k < |ParsedInstances(lines, parse)| ==>
      ParsedInstances(lines, parse)[k].color == PointColor && ParsedInstances(lines, parse)[k].posScale.w == 1.0
  {
    if |lines| > 0 {
      ParsedInstancesAreUniform(lines[..|lines| - 1], parse);
    }
  }

  /** The reader is in the data section after line `i` exactly when it was before it or line `i` is `DATA ascii`. */
  lemma DataStartedStep(lines: seq<string>, i: nat)
    requires i < |lines|
    ensures DataStartedAt(lines, i + 1) <==> DataStartedAt(lines, i) || IsMarkerLine(lines[i])
  {
    if DataStartedAt(lines, i + 1) && !IsMarkerLine(lines[i]) {
      var j :| 0 <= j < i + 1 && IsMarkerLine(lines[j]);
      assert j < i;
    }
  }

  /** Reading one more line adds that line's instance, if it is accepted. */
  lemma PrefixStep(lines: seq<string>, i: nat, parse: string -> Option<real>)
    requires i < |lines|
    ensures ParsedInstances(lines[..i + 1], parse)
      == ParsedInstances(lines[..i], parse) + (if IsAcceptedLine(lines, i) then [LineInstance(SplitWhitespace(lines[i]), parse)] else [])
  {
    var next := lines[..i + 1];
    assert next[..i] == lines[..i] && next[i] == lines[i];
    AcceptedInPrefix(lines, i + 1);
  }

  /**
   * `load_pcd_file` on the lines of the file: the `in_data` state machine,
   * returning the instances and the cube size 0.02 in each dimension.
   */
  method LoadPcdFile(lines: seq<string>, parse: string -> Option<real>)
    returns (instances: seq<InstanceData>, cubeWidth: real, cubeHeight: real, cubeDepth: real)
    ensures instances == ParsedInstances(lines, parse)
    ensures cubeWidth == 0.02 && cubeHeight == 0.02 && cubeDepth == 0.02
  {
    instances := [];
    var inData := false;
    var i := 0;
    while i < |lines|
      invariant 0 <= i <= |lines|
      invariant inData == DataStartedAt(lines, i)
      invariant instances == ParsedInstances(lines[..i], parse)
    {
      var line := lines[i];
      PrefixStep(lines, i, parse);
      DataStartedStep(lines, i);
      if (|line| > 0 && line[0] == '#') || Trim(line) == "" {
      } else if Trim(line) == "DATA ascii" {
        inData := true;
      } else if inData {
        var parts := SplitWhitespace(line);
        if |parts| >= 3 {
          var x := ParseOr0(parse, parts[0]);
          var y := ParseOr0(parse, parts[1]);
          var z := ParseOr0(parse, parts[2]);
          instances := instances + [InstanceData(Vec4(x, y, z, 1.0), PointColor)];
        }
      }
      i := i + 1;
    }
    assert lines[..i] == lines;
    cubeWidth, cubeHeight, cubeDepth := 0.02, 0.02, 0.02;
  }

  /** The opacity of an instance: its colour's alpha. */
  function Alpha(instance: InstanceData): real {
    instance.color.w
  }

  /** `MAX_INSTANCES`: the most instances the setup keeps. */
  const MaxInstances: nat := 2_000_000

  /**
   * The sort and truncation of `voxel_plot_setup`: a stable sort by alpha,
   * most opaque first, then `truncate(MAX_INSTANCES)` when longer.
   */
  method VoxelPlotSetup(parsed: seq<InstanceData>) returns (instances: seq<InstanceData>)
    ensures instances == Truncate(SortDesc(parsed, Alpha), MaxInstances)
  {
    var sorted := new InstanceData[|parsed|](k requires 0 <= k < |parsed| => parsed[k]);
    assert sorted[..] == parsed;
    SortDescInPlace(sorted, Alpha);
    instances := sorted[..];
    if |instances| > MaxInstances {
      instances := instances[..MaxInstances];
    }
  }

  /**
   * What the setup keeps: at most `MAX_INSTANCES` instances, all of them taken
   * from the input, most opaque first, and none less opaque than any it drops;
   * an input that is short enough is kept whole, as a permutation.
   */
  lemma SetupKeepsMostOpaque(parsed: seq<InstanceData>)
    ensures var sorted := SortDesc(parsed, Alpha);
      var kept := Truncate(sorted, MaxInstances);
      && |kept| <= MaxInstances
      && kept == sorted[..|kept|]
      && multiset(kept) <= multiset(parsed)
      && (|parsed| <= MaxInstances ==> multiset(kept) == multiset(parsed))
      && (forall i, j :: 0 <= i < j < |kept| ==> Alpha(kept[i]) >= Alpha(kept[j]))
      && (forall i, j :: 0 <= i < |kept| <= j < |sorted| ==> Alpha(kept[i]) >= Alpha(sorted[j]))
  {
    var sorted := SortDesc(parsed, Alpha);
    var kept := Truncate(sorted, MaxInstances);
    SortDescIsSorted(parsed, Alpha);
    assert sorted == kept + sorted[|kept|..];
    assert multiset(sorted) == multiset(kept) + multiset(sorted[|kept|..]);
  }

  /**
   * All points read from a file share one alpha, so the opacity sort leaves
   * them in file order and the setup keeps the first `MAX_INSTANCES` lines'
   * points.
   */
  lemma SetupKeepsFileOrder(lines: seq<string>, parse: string -> Option<real>)
    ensures var parsed := ParsedInstances(lines, parse);
      Truncate(SortDesc(parsed, Alpha), MaxInstances) == Truncate(parsed, MaxInstances)
  {
    var parsed := ParsedInstances(lines, parse);
    ParsedInstancesAreUniform(lines, parse);
    SortDescOfConstantKey(parsed, Alpha, PointColor.w);
  }
}
