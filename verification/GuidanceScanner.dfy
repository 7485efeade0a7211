/**
 The secret-assignment scanner for guidance text (src/devloop/redaction.py:260-397).

 Each cursor loop is proved against a function of the text; what the scanner promises is then
 proved about `Scan`: the spans it replaces, and that a second pass changes nothing.
 */
module GuidanceScanner {
  import GuidanceText
  import opened Wrappers

  const REDACTED := "[redacted]"

  // ---------------------------------------------------------------------------------------------
  // Characters

  predicate IsKeyChar(c: char) {
    'a' <= c <= 'z' || 'A' <= c <= 'Z' || '0' <= c <= '9' || c == '_' || c == '-'
  }

  predicate IsBlank(c: char) {
    c == ' ' || c == '\t' || c == '\r' || c == '\n'
  }

  predicate IsSeparator(c: char) {
    c == ' ' || c == '\t' || c == '\'' || c == '\"'
  }

  predicate IsQuote(c: char) {
    c == '\'' || c == '\"'
  }

  /** The characters that may follow a closing quotation mark. */
  predicate EndsValue(c: char) {
    IsBlank(c) || c == ',' || c == '.' || c == ';' || c == ':' || c == ')' || c == ']' || c == '}'
  }

  predicate Assigns(c: char) {
    c == ':' || c == '='
  }

  /** The indicators of a YAML block value. */
  predicate OpensBlock(c: char) {
    c == '|' || c == '>'
  }

  /** Python's `str.isspace`, character by character. */
  predicate IsSpace(c: char) {
    var n := c as int;
    || 0x09 <= n <= 0x0D || 0x1C <= n <= 0x20 || n == 0x85 || n == 0xA0 || n == 0x1680
    || 0x2000 <= n <= 0x200A || n == 0x2028 || n == 0x2029 || n == 0x202F || n == 0x205F || n == 0x3000
  }

  // ---------------------------------------------------------------------------------------------
  // Key names

  function LowerKey(s: string): string {
    seq(|s|, i requires 0 <= i < |s| =>
      if s[i] == '-' then '_' else if 'A' <= s[i] <= 'Z' then (s[i] as int + 32) as char else s[i])
  }

  function SplitParts(s: string): (parts: seq<string>)
    ensures parts != []
  {
    if s == "" then [""]
    else
      var rest := SplitParts(s[1..]);
      if s[0] == '_' then [""] + rest else [[s[0]] + rest[0]] + rest[1..]
  }

  predicate IsSecretKeyName(value: string) {
    var parts := SplitParts(LowerKey(value));
    && (forall i | 0 <= i < |parts| :: parts[i] != "")
    && exists i :: 0 <= i < |parts| &&
         (|| parts[i] in ["secret", "token", "password", "passwd", "credential", "credentials"]
          || parts[i] in ["connectionstring", "apikey", "accesskey", "privatekey"]
          || (i + 1 < |parts| && parts[i] == "connection" && parts[i + 1] == "string")
          || (i + 1 < |parts| && parts[i] in ["api", "access", "private"] && parts[i + 1] == "key"))
  }

  /** The same letter in either case, or either of the two characters that join words. */
  predicate SameKeyChar(c: char, d: char) {
    || c == d
    || (c in {'-', '_'} && d in {'-', '_'})
    || ('A' <= c <= 'Z' && d as int == c as int + 32)
    || ('A' <= d <= 'Z' && c as int == d as int + 32)
  }

  /** A key is recognised whatever its case and whichever of the two characters joins its words. */
  lemma KeyNamesFoldCase(a: string, b: string)
    requires |a| == |b| && forall i | 0 <= i < |a| :: SameKeyChar(a[i], b[i])
    ensures IsSecretKeyName(a) <==> IsSecretKeyName(b)
  {
    forall i | 0 <= i < |a| ensures LowerKey(a)[i] == LowerKey(b)[i] {
      assert SameKeyChar(a[i], b[i]);
    }
    assert LowerKey(a) == LowerKey(b);
  }

  // ---------------------------------------------------------------------------------------------
  // Assignments

  function TokenEnd(v: string, i: nat): (e: nat)
    requires i <= |v|
    ensures i <= e <= |v|
    ensures forall k | i <= k < e :: IsKeyChar(v[k])
    ensures e < |v| ==> !IsKeyChar(v[e])
    decreases |v| - i
  {
    if i < |v| && IsKeyChar(v[i]) then TokenEnd(v, i + 1) else i
  }

  function SkipSeparators(v: string, i: nat): (e: nat)
    requires i <= |v|
    ensures i <= e <= |v|
    ensures forall k | i <= k < e :: IsSeparator(v[k])
    ensures e < |v| ==> !IsSeparator(v[e])
    decreases |v| - i
  {
    if i < |v| && IsSeparator(v[i]) then SkipSeparators(v, i + 1) else i
  }

  function SkipBlanks(v: string, i: nat): (e: nat)
    requires i <= |v|
    ensures i <= e <= |v|
    ensures forall k | i <= k < e :: IsBlank(v[k])
    ensures e < |v| ==> !IsBlank(v[e])
    decreases |v| - i
  {
    if i < |v| && IsBlank(v[i]) then SkipBlanks(v, i + 1) else i
  }

  /** The first newline at or after `i`, or the end of the text. */
  function LineEnd(v: string, i: nat): (e: nat)
    requires i <= |v|
    ensures i <= e <= |v|
    ensures forall k | i <= k < e :: v[k] != '\n'
    ensures e < |v| ==> v[e] == '\n'
    decreases |v| - i
  {
    if i < |v| && v[i] != '\n' then LineEnd(v, i + 1) else i
  }

  /** Where the line that holds position `i` starts. */
  function LineStart(v: string, i: nat): (s: nat)
    requires i <= |v|
    ensures s <= i
    ensures forall k | s <= k < i :: v[k] != '\n'
    ensures s > 0 ==> v[s - 1] == '\n'
  {
    if i == 0 || v[i - 1] == '\n' then i else LineStart(v, i - 1)
  }

  function SeparatorOf(v: string, t: nat): (s: nat)
    requires t <= |v|
    ensures t <= s <= |v|
  {
    SkipSeparators(v, TokenEnd(v, t))
  }

  /** A complete token starts at `t`, names a secret, and is assigned to. */
  predicate AssignmentAt(v: string, t: nat) {
    && t < |v| && IsKeyChar(v[t]) && (t > 0 ==> !IsKeyChar(v[t - 1]))
    && IsSecretKeyName(v[t..TokenEnd(v, t)])
    && SeparatorOf(v, t) < |v| && Assigns(v[SeparatorOf(v, t)])
  }

  predicate IsNextAssignment(v: string, start: nat, next: Option<nat>) {
    match next
    case None => forall t | start <= t < |v| :: !AssignmentAt(v, t)
    case Some(t) => start <= t && AssignmentAt(v, t) && forall k | start <= k < t :: !AssignmentAt(v, k)
  }

  function NextAssignment(v: string, start: nat): (next: Option<nat>)
    requires start <= |v|
    ensures IsNextAssignment(v, start, next)
    decreases |v| - start
  {
    if start == |v| then None
    else if AssignmentAt(v, start) then Some(start)
    else NextAssignment(v, start + 1)
  }

  lemma NextAssignmentIsUnique(v: string, start: nat, a: Option<nat>, b: Option<nat>)
    requires IsNextAssignment(v, start, a) && IsNextAssignment(v, start, b)
    ensures a == b
  {
  }

  /** No token starts inside another one. */
  lemma InsideToken(v: string, start: nat, end: nat)
    requires start < end <= |v| && forall k | start <= k < end :: IsKeyChar(v[k])
    ensures forall k | start < k < end :: !AssignmentAt(v, k)
  {
    forall k | start < k < end ensures !AssignmentAt(v, k) {
      assert IsKeyChar(v[k - 1]);
    }
  }

  method FindSecretAssignment(value: string, start: nat) returns (r: Option<(nat, nat)>)
    requires start <= |value|
    ensures r == match NextAssignment(value, start)
                 case None => None
                 case Some(t) => Some((t, SeparatorOf(value, t)))
  {
    hide IsSecretKeyName, LowerKey, SplitParts;
    var cursor := start;
    while cursor < |value|
      invariant start <= cursor <= |value|
      invariant forall k | start <= k < cursor :: !AssignmentAt(value, k)
    {
      if !IsKeyChar(value[cursor]) || (cursor > 0 && IsKeyChar(value[cursor - 1])) {
        cursor := cursor + 1;
        continue;
      }
      var tokenStart := cursor;
      cursor := cursor + 1;
      while cursor < |value| && IsKeyChar(value[cursor])
        invariant tokenStart < cursor <= |value|
        invariant forall k | tokenStart <= k < cursor :: IsKeyChar(value[k])
      {
        cursor := cursor + 1;
      }
      assert cursor == TokenEnd(value, tokenStart);
      InsideToken(value, tokenStart, cursor);
      if !IsSecretKeyName(value[tokenStart..cursor]) {
        continue;
      }
      var separator := cursor;
      while separator < |value| && IsSeparator(value[separator])
        invariant cursor <= separator <= |value|
        invariant forall k | cursor <= k < separator :: IsSeparator(value[k])
      {
        separator := separator + 1;
      }
      assert separator == SkipSeparators(value, cursor);
      if separator < |value| && Assigns(value[separator]) {
        NextAssignmentIsUnique(value, start, NextAssignment(value, start), Some(tokenStart));
        return Some((tokenStart, separator));
      }
    }
    NextAssignmentIsUnique(value, start, NextAssignment(value, start), None);
    return None;
  }

  // ---------------------------------------------------------------------------------------------
  // Values

  /** What a value is replaced with, and where copying resumes. */
  datatype Replacement = Replacement(marker: string, resume: nat)

  predicate StartsWith(v: string, prefix: string, i: nat) {
    i + |prefix| <= |v| && v[i..i + |prefix|] == prefix
  }

  function Delimiter(v: string, start: nat): (d: string)
    requires start < |v| && IsQuote(v[start])
    ensures d == [v[start]] || d == [v[start], v[start], v[start]]
    ensures StartsWith(v, d, start)
  {
    var triple := [v[start], v[start], v[start]];
    if StartsWith(v, triple, start) then triple else [v[start]]
  }

  /** The position behind the quotation mark that closes the value, if one does. */
  function Closing(v: string, d: string, i: nat): (following: Option<nat>)
    requires i <= |v| && (|d| == 1 || |d| == 3)
    ensures following.Some? ==> i < following.value <= |v|
    decreases |v| - i
  {
    if i >= |v| then None
    else if StartsWith(v, d, i) && |d| == 1 && StartsWith(v, d + d, i) then Closing(v, d, i + 2)
    else if StartsWith(v, d, i) && (|d| > 1 || i + |d| == |v| || EndsValue(v[i + |d|])) then Some(i + |d|)
    else if v[i] == '\\' && i + 1 < |v| then Closing(v, d, i + 2)
    else Closing(v, d, i + 1)
  }

  lemma DelimiterFits(v: string, start: nat)
    requires start < |v| && IsQuote(v[start])
    ensures start + |Delimiter(v, start)| <= |v|
  {
  }

  /** How the closing quotation mark is found from one position. */
  lemma ClosingStep(v: string, d: string, i: nat)
    requires i <= |v| && (|d| == 1 || |d| == 3)
    ensures StartsWith(v, d, i) ==> i + |d| <= |v|
    ensures StartsWith(v, d + d, i) ==> i + 2 * |d| <= |v|
    ensures i == |v| ==> Closing(v, d, i).None?
    ensures i < |v| ==>
      Closing(v, d, i) ==
        if StartsWith(v, d, i) && |d| == 1 && StartsWith(v, d + d, i) then Closing(v, d, i + 2)
        else if StartsWith(v, d, i) && (|d| > 1 || i + |d| == |v| || EndsValue(v[i + |d|])) then Some(i + |d|)
        else if v[i] == '\\' && i + 1 < |v| then Closing(v, d, i + 2)
        else Closing(v, d, i + 1)
  {
  }

  function QuotedReplacement(v: string, start: nat): (r: Replacement)
    requires start < |v| && IsQuote(v[start])
    ensures start < r.resume <= |v|
    ensures r.resume < |v| ==> v[r.resume] == '\n'
  {
    var d := Delimiter(v, start);
    match Closing(v, d, start + |d|)
    case None => Replacement(d + REDACTED, |v|)
    case Some(following) => Replacement(d + REDACTED + d, LineEnd(v, following))
  }

  lemma LineEndMeans(v: string, s: nat)
    requires s <= |v|
    ensures forall e :: GuidanceText.IsLine(v, s, e) <==> e == LineEnd(v, s)
  {
  }

  lemma StartsWithMeans(v: string, p: string, i: nat)
    ensures StartsWith(v, p, i) <==> GuidanceText.TextAt(v, i, p)
  {
    if i + |p| <= |v| {
      var slice := v[i..i + |p|];
      assert forall k | 0 <= k < |p| :: slice[k] == v[i + k];
    }
  }

  lemma ClosesMeans(v: string, d: string, i: nat)
    requires i < |v| && (|d| == 1 || |d| == 3)
    ensures StartsWith(v, d, i) ==> i + |d| <= |v|
    ensures GuidanceText.ClosesValue(v, d, i) <==>
      && StartsWith(v, d, i) && !(|d| == 1 && StartsWith(v, d + d, i))
      && (|d| > 1 || i + |d| == |v| || EndsValue(v[i + |d|]))
    ensures GuidanceText.Onward(v, d, i)
         == if (|d| == 1 && StartsWith(v, d + d, i)) || (v[i] == '\\' && i + 1 < |v|) then i + 2 else i + 1
    ensures |d| == 1 && StartsWith(v, d + d, i) ==> i + 2 <= |v| && StartsWith(v, d, i)
  {
    StartsWithMeans(v, d, i);
    StartsWithMeans(v, d + d, i);
    if |d| == 1 && StartsWith(v, d + d, i) {
      assert (d + d)[0] == d[0];
      assert GuidanceText.TextAt(v, i, d);
    }
  }

  lemma WalkOn(v: string, d: string, i: nat, path: seq<nat>, next: nat, to: nat)
    requires i < |v| && !GuidanceText.ClosesValue(v, d, i) && next == GuidanceText.Onward(v, d, i)
    requires GuidanceText.Walks(v, d, path, next, to)
    ensures GuidanceText.Walks(v, d, [i] + path, i, to)
  {
    var longer := [i] + path;
    forall k | 0 <= k < |longer| - 1
      ensures longer[k] < |v| && !GuidanceText.ClosesValue(v, d, longer[k])
      ensures longer[k + 1] == GuidanceText.Onward(v, d, longer[k])
    {
      if k > 0 {
        assert longer[k] == path[k - 1] && longer[k + 1] == path[k];
      }
    }
  }

  /** The closing mark is the first one that a walk over doubled marks and escapes comes to. */
  lemma {:induction false} ClosingMeans(v: string, d: string, i: nat)
    requires i <= |v| && (|d| == 1 || |d| == 3)
    ensures match Closing(v, d, i)
      case Some(f) => |d| <= f && GuidanceText.FirstClosing(v, d, i, f - |d|)
      case None => GuidanceText.NeverCloses(v, d, i)
    decreases |v| - i
  {
    hide StartsWith, EndsValue, GuidanceText.ClosesValue, GuidanceText.Onward;
    if i == |v| {
      assert GuidanceText.Walks(v, d, [i], i, i);
    } else {
      ClosesMeans(v, d, i);
      if GuidanceText.ClosesValue(v, d, i) {
        assert GuidanceText.Walks(v, d, [i], i, i);
      } else {
        var next := GuidanceText.Onward(v, d, i);
        ClosingMeans(v, d, next);
        match Closing(v, d, next) {
          case Some(f) =>
            var path :| GuidanceText.Walks(v, d, path, next, f - |d|);
            WalkOn(v, d, i, path, next, f - |d|);
          case None =>
            var path, to: nat :| GuidanceText.Walks(v, d, path, next, to) && to >= |v|;
            WalkOn(v, d, i, path, next, to);
        }
      }
    }
  }

  lemma DelimiterMeans(v: string, start: nat)
    requires start < |v| && IsQuote(v[start])
    ensures GuidanceText.OpensWith(v, start, Delimiter(v, start))
  {
    StartsWithMeans(v, [v[start], v[start], v[start]], start);
  }

  lemma QuotedMeans(v: string, start: nat)
    requires start < |v| && IsQuote(v[start])
    ensures var r, d := QuotedReplacement(v, start), Delimiter(v, start);
      GuidanceText.OpensWith(v, start, d) && GuidanceText.IsQuotedReplacement(v, start, d, r.marker, r.resume)
      && GuidanceText.IsQuotedValue(v, start, r.marker, r.resume)
  {
    hide StartsWith, Delimiter, Closing, LineEnd, GuidanceText.FirstClosing, GuidanceText.NeverCloses;
    var d := Delimiter(v, start);
    DelimiterFits(v, start);
    DelimiterMeans(v, start);
    ClosingMeans(v, d, start + |d|);
    match Closing(v, d, start + |d|) {
      case Some(following) =>
        LineEndMeans(v, following);
        assert GuidanceText.LineBehind(v, d, following - |d|, LineEnd(v, following));
      case None =>
    }
  }

  lemma QuotedIsMeant(v: string, start: nat)
    requires start < |v| && IsQuote(v[start])
    ensures GuidanceText.IsQuotedValue(
      v, start, QuotedReplacement(v, start).marker, QuotedReplacement(v, start).resume)
  {
    hide QuotedReplacement, GuidanceText.OpensWith, GuidanceText.IsQuotedReplacement, GuidanceText.IsQuotedValue;
    QuotedMeans(v, start);
  }

  lemma QuotedDefinition(v: string, start: nat)
    requires start < |v| && IsQuote(v[start])
    ensures var d := Delimiter(v, start);
      start + |d| <= |v| && (|d| == 1 || |d| == 3)
      && QuotedReplacement(v, start) ==
         match Closing(v, d, start + |d|)
         case None => Replacement(d + REDACTED, |v|)
         case Some(following) => Replacement(d + REDACTED + d, LineEnd(v, following))
  {
    hide Delimiter, Closing, LineEnd, StartsWith;
    DelimiterFits(v, start);
  }

  method RedactQuotedSecretValue(value: string, start: nat) returns (r: Replacement)
    requires start < |value| && IsQuote(value[start])
    ensures r == QuotedReplacement(value, start)
    // closed by the first mark that counts, up to the end of its line, or by none, up to the end of the text
    ensures GuidanceText.IsQuotedValue(value, start, r.marker, r.resume)
  {
    hide GuidanceText.IsQuotedValue, QuotedReplacement, LineEnd, Delimiter, Closing;
    QuotedIsMeant(value, start);
    QuotedDefinition(value, start);
    var d := Delimiter(value, start);
    var closing := FindClosing(value, d, start + |d|);
    match closing {
      case None => r := Replacement(d + REDACTED, |value|);
      case Some(following) => r := Replacement(d + REDACTED + d, LineEnd(value, following));
    }
  }

  /** The place behind the closing mark: past doubled marks and escapes, and before what may follow a value. */
  method FindClosing(value: string, d: string, start: nat) returns (closing: Option<nat>)
    requires start <= |value| && (|d| == 1 || |d| == 3)
    ensures closing == Closing(value, d, start)
  {
    hide Closing, EndsValue, StartsWith;
    ClosingStep(value, d, |value|);
    var cursor := start;
    while cursor < |value|
      invariant start <= cursor <= |value|
      invariant Closing(value, d, start) == Closing(value, d, cursor)
    {
      ClosingStep(value, d, cursor);
      if StartsWith(value, d, cursor) {
        if |d| == 1 && StartsWith(value, d + d, cursor) {
          cursor := cursor + 2;
          continue;
        }
        var following := cursor + |d|;
        if |d| > 1 || following == |value| || EndsValue(value[following]) {
          return Some(following);
        }
      }
      if value[cursor] == '\\' && cursor + 1 < |value| {
        cursor := cursor + 2;
      } else {
        cursor := cursor + 1;
      }
    }
    return None;
  }

  predicate AllSpace(s: string) {
    forall i | 0 <= i < |s| :: IsSpace(s[i])
  }

  function Indentation(line: string): nat {
    if line != "" && (line[0] == ' ' || line[0] == '\t') then 1 + Indentation(line[1..]) else 0
  }

  function BaseIndent(v: string, t: nat): nat
    requires t <= |v|
  {
    var prefix := v[LineStart(v, t)..t];
    if AllSpace(prefix) then |prefix| else 0
  }

  /** From the newline at `cursor`, the newline before the first line that leaves the block. */
  function BlockEnd(v: string, cursor: nat, indent: nat): (e: nat)
    requires cursor <= |v| && (cursor < |v| ==> v[cursor] == '\n')
    ensures cursor <= e <= |v| && (e < |v| ==> v[e] == '\n')
    decreases |v| - cursor
  {
    if cursor == |v| then cursor
    else
      var end := LineEnd(v, cursor + 1);
      var line := v[cursor + 1..end];
      if !AllSpace(line) && Indentation(line) <= indent then cursor else BlockEnd(v, end, indent)
  }

  lemma SpacesMean(c: char)
    ensures IsSpace(c) <==> GuidanceText.Strippable(c)
  {
  }

  /** The indentation is the length of the longest run of leading spaces and tabs. */
  lemma {:induction false} IndentationMeans(line: string)
    ensures Indentation(line) <= |line|
    ensures forall k | 0 <= k < Indentation(line) :: GuidanceText.SpaceOrTab(line[k])
    ensures Indentation(line) < |line| ==> !GuidanceText.SpaceOrTab(line[Indentation(line)])
  {
    if line != "" && (line[0] == ' ' || line[0] == '\t') {
      IndentationMeans(line[1..]);
    }
  }

  lemma LineStays(v: string, s: nat, e: nat, indent: nat)
    requires s <= e <= |v|
    ensures !AllSpace(v[s..e]) && Indentation(v[s..e]) <= indent <==> !GuidanceText.StaysInBlock(v, s, e, indent)
  {
    var line := v[s..e];
    IndentationMeans(line);
    forall k | s <= k < e ensures IsSpace(v[k]) <==> GuidanceText.Strippable(v[k]) {
      SpacesMean(v[k]);
    }
    assert forall k | s <= k < e :: v[k] == line[k - s];
    assert forall i | 0 <= i < |line| :: line[i] == v[s + i];
  }

  lemma {:induction false} BlockEndMeans(v: string, cursor: nat, indent: nat)
    requires cursor <= |v| && (cursor < |v| ==> v[cursor] == '\n')
    ensures GuidanceText.BlockLines(v, cursor, indent, BlockEnd(v, cursor, indent))
    decreases |v| - cursor
  {
    hide LineEnd, Indentation, AllSpace, GuidanceText.StaysInBlock, GuidanceText.IsLine;
    if cursor < |v| {
      var end := LineEnd(v, cursor + 1);
      LineEndMeans(v, cursor + 1);
      LineStays(v, cursor + 1, end, indent);
      if GuidanceText.StaysInBlock(v, cursor + 1, end, indent) {
        BlockEndMeans(v, end, indent);
        forall p: nat, e: nat | cursor <= p < BlockEnd(v, end, indent) && GuidanceText.LineAfter(v, p, e)
          ensures GuidanceText.StaysInBlock(v, p + 1, e, indent)
        {
          assert p == cursor || p >= end;
        }
      }
    }
  }

  lemma BaseIndentMeans(v: string, t: nat)
    requires t <= |v|
    ensures GuidanceText.IsBase(v, t, BaseIndent(v, t))
  {
    var s := LineStart(v, t);
    forall k | s <= k < t ensures IsSpace(v[k]) <==> GuidanceText.Strippable(v[k]) {
      SpacesMean(v[k]);
    }
    var prefix := v[s..t];
    assert GuidanceText.StartsLine(v, s, t);
    assert forall k | s <= k < t :: v[k] == prefix[k - s];
    assert forall i | 0 <= i < |prefix| :: prefix[i] == v[s + i];
  }

  lemma BlockMeans(v: string, t: nat, vs: nat)
    requires t <= vs <= |v|
    ensures GuidanceText.EndsBlock(v, t, vs, BlockEnd(v, LineEnd(v, vs), BaseIndent(v, t)))
  {
    hide GuidanceText.BlockLines, GuidanceText.IsBase, GuidanceText.IsLine, BlockEnd, BaseIndent;
    LineEndMeans(v, vs);
    BaseIndentMeans(v, t);
    BlockEndMeans(v, LineEnd(v, vs), BaseIndent(v, t));
  }

  method SkipSecretBlock(value: string, valueStart: nat, assignmentStart: nat) returns (cursor: nat)
    requires assignmentStart <= valueStart <= |value|
    ensures cursor == BlockEnd(value, LineEnd(value, valueStart), BaseIndent(value, assignmentStart))
    // every line passed over stays in the block, and the next one does not
    ensures GuidanceText.EndsBlock(value, assignmentStart, valueStart, cursor)
  {
    hide GuidanceText.EndsBlock;
    BlockMeans(value, assignmentStart, valueStart);
    var baseIndent := BaseIndent(value, assignmentStart);
    cursor := LineEnd(value, valueStart);
    ghost var first := cursor;
    while cursor < |value|
      invariant cursor <= |value| && (cursor < |value| ==> value[cursor] == '\n')
      invariant BlockEnd(value, first, baseIndent) == BlockEnd(value, cursor, baseIndent)
      decreases |value| - cursor
    {
      var lineEnd := LineEnd(value, cursor + 1);
      var line := value[cursor + 1..lineEnd];
      if !AllSpace(line) && Indentation(line) <= baseIndent {
        return cursor;
      }
      cursor := lineEnd;
    }
  }

  /** The replacement of the value at `vs`, assigned by the token at `t`. */
  function ValueReplacement(v: string, t: nat, vs: nat): (r: Replacement)
    requires t <= vs < |v| && !IsBlank(v[vs])
    ensures vs < r.resume <= |v|
    ensures r.resume < |v| ==> v[r.resume] == '\n'
  {
    if OpensBlock(v[vs]) then Replacement(REDACTED, BlockEnd(v, LineEnd(v, vs), BaseIndent(v, t)))
    else if IsQuote(v[vs]) then QuotedReplacement(v, vs)
    else Replacement(REDACTED, LineEnd(v, vs))
  }

  // ---------------------------------------------------------------------------------------------
  // The scanner

  function ValueStart(v: string, t: nat): (vs: nat)
    requires AssignmentAt(v, t)
    ensures t < vs <= |v| && (vs < |v| ==> !IsBlank(v[vs]))
  {
    SkipBlanks(v, SeparatorOf(v, t) + 1)
  }

  function Scan(v: string, cursor: nat): string
    requires cursor <= |v|
    decreases |v| - cursor
  {
    match NextAssignment(v, cursor)
    case None => v[cursor..]
    case Some(t) =>
      var vs := ValueStart(v, t);
      if vs == |v| then v[cursor..]
      else
        var r := ValueReplacement(v, t, vs);
        v[cursor..vs] + r.marker + Scan(v, r.resume)
  }

  lemma ScanDefinition(v: string, i: nat)
    requires i <= |v|
    ensures var next := NextAssignment(v, i);
      if next.None? || ValueStart(v, next.value) == |v| then Scan(v, i) == v[i..]
      else
        var vs := ValueStart(v, next.value);
        var r := ValueReplacement(v, next.value, vs);
        Scan(v, i) == v[i..vs] + r.marker + Scan(v, r.resume)
  {
    hide NextAssignment, ValueStart, ValueReplacement;
  }

  lemma ScanStep(v: string, before: string, cursor: nat)
    requires cursor <= |v|
    ensures match NextAssignment(v, cursor)
      case None => before + Scan(v, cursor) == before + v[cursor..]
      case Some(t) =>
        var vs := ValueStart(v, t);
        if vs == |v| then before + Scan(v, cursor) == before + v[cursor..vs]
        else
          var r := ValueReplacement(v, t, vs);
          before + Scan(v, cursor) == before + v[cursor..vs] + r.marker + Scan(v, r.resume)
  {
    hide AssignmentAt, NextAssignment, ValueStart, ValueReplacement, Scan;
    ScanDefinition(v, cursor);
    var next := NextAssignment(v, cursor);
    if next.Some? {
      var vs := ValueStart(v, next.value);
      if vs == |v| {
        assert v[cursor..vs] == v[cursor..];
      } else {
        var r := ValueReplacement(v, next.value, vs);
        Regroup(before, v[cursor..vs], r.marker, Scan(v, r.resume));
      }
    }
  }

  lemma Regroup(a: string, b: string, c: string, d: string)
    ensures a + (b + c + d) == a + b + c + d
  {
  }

  method RedactValue(value: string, tokenStart: nat, valueStart: nat) returns (r: Replacement)
    requires tokenStart <= valueStart < |value| && !IsBlank(value[valueStart])
    ensures r == ValueReplacement(value, tokenStart, valueStart)
  {
    if OpensBlock(value[valueStart]) {
      var resume := SkipSecretBlock(value, valueStart, tokenStart);
      return Replacement(REDACTED, resume);
    }
    if IsQuote(value[valueStart]) {
      r := RedactQuotedSecretValue(value, valueStart);
      return;
    }
    return Replacement(REDACTED, LineEnd(value, valueStart));
  }

  method RedactAssignedSecrets(value: string) returns (output: string)
    ensures output == Scan(value, 0)
  {
    hide Scan, NextAssignment, AssignmentAt, SeparatorOf, LineEnd, BlockEnd, BaseIndent, QuotedReplacement;
    output := "";
    var cursor := 0;
    while cursor < |value|
      invariant cursor <= |value|
      invariant Scan(value, 0) == output + Scan(value, cursor)
    {
      ScanStep(value, output, cursor);
      var assignment := FindSecretAssignment(value, cursor);
      if assignment.None? {
        return output + value[cursor..];
      }
      var (tokenStart, separator) := assignment.value;
      var valueStart := separator + 1;
      while valueStart < |value| && IsBlank(value[valueStart])
        invariant separator < valueStart <= |value|
        invariant SkipBlanks(value, separator + 1) == SkipBlanks(value, valueStart)
      {
        valueStart := valueStart + 1;
      }
      output := output + value[cursor..valueStart];
      if valueStart >= |value| {
        return output;
      }
      var replacement := RedactValue(value, tokenStart, valueStart);
      output := output + replacement.marker;
      cursor := replacement.resume;
    }
    ScanStep(value, output, cursor);
    assert NextAssignment(value, cursor).None?;
  }

  // ---------------------------------------------------------------------------------------------
  // What is replaced

  datatype Span = Span(from: nat, to: nat, marker: string)

  function Spans(v: string, cursor: nat): seq<Span>
    requires cursor <= |v|
    decreases |v| - cursor
  {
    match NextAssignment(v, cursor)
    case None => []
    case Some(t) =>
      var vs := ValueStart(v, t);
      if vs == |v| then []
      else
        var r := ValueReplacement(v, t, vs);
        [Span(vs, r.resume, r.marker)] + Spans(v, r.resume)
  }

  /** Non-empty, in order, disjoint, within the text, and each up to the end of a line. */
  predicate WellPlaced(v: string, cursor: nat, spans: seq<Span>) {
    && (forall i | 0 <= i < |spans| ::
          && cursor <= spans[i].from < spans[i].to <= |v|
          && (spans[i].to < |v| ==> v[spans[i].to] == '\n'))
    && (forall i, j | 0 <= i < j < |spans| :: spans[i].to <= spans[j].from)
  }

  /** The text from `cursor` on, with every span replaced by its marker and the rest kept in order. */
  function Splice(v: string, cursor: nat, spans: seq<Span>): string
    requires cursor <= |v| && WellPlaced(v, cursor, spans)
    decreases |spans|
  {
    if spans == [] then v[cursor..]
    else
      assert WellPlaced(v, spans[0].to, spans[1..]);
      v[cursor..spans[0].from] + spans[0].marker + Splice(v, spans[0].to, spans[1..])
  }

  predicate IsDelimiter(d: string) {
    && |d| in {1, 3} && IsQuote(d[0])
    && forall i | 0 <= i < |d| :: d[i] == d[0]
  }

  /** The marker itself, in the quotation marks of the value it stands for, or with one left open. */
  ghost predicate IsMarker(marker: string) {
    || marker == REDACTED
    || exists d: string :: IsDelimiter(d) && (marker == d + REDACTED || marker == d + REDACTED + d)
  }

  lemma ReplacementMarker(v: string, t: nat, vs: nat)
    requires t <= vs < |v| && !IsBlank(v[vs])
    ensures IsMarker(ValueReplacement(v, t, vs).marker)
  {
    if !OpensBlock(v[vs]) && IsQuote(v[vs]) {
      assert IsDelimiter(Delimiter(v, vs));
    }
  }

  /** Scanning replaces disjoint spans, each up to the end of a line, and keeps all the rest. */
  lemma {:induction false} ScanSplices(v: string, cursor: nat)
    requires cursor <= |v|
    ensures WellPlaced(v, cursor, Spans(v, cursor))
    ensures forall i | 0 <= i < |Spans(v, cursor)| :: IsMarker(Spans(v, cursor)[i].marker)
    ensures Scan(v, cursor) == Splice(v, cursor, Spans(v, cursor))
    decreases |v| - cursor
  {
    hide AssignmentAt, ValueReplacement, IsMarker, ValueStart, NextAssignment;
    var next := NextAssignment(v, cursor);
    if next.Some? && ValueStart(v, next.value) < |v| {
      var vs := ValueStart(v, next.value);
      var r := ValueReplacement(v, next.value, vs);
      ReplacementMarker(v, next.value, vs);
      ScanSplices(v, r.resume);
      var rest := Spans(v, r.resume);
      assert Spans(v, cursor)[1..] == rest;
    }
  }

  /** The value at `vs`, assigned at `t`, starts a span, or the assignment lies inside one itself. */
  ghost predicate Masked(spans: seq<Span>, t: nat, vs: nat) {
    exists i :: 0 <= i < |spans| && (spans[i].from == vs || spans[i].from <= t < spans[i].to)
  }

  /** Every recognised assignment of a value is masked. */
  lemma {:induction false} EveryAssignmentIsMasked(v: string, cursor: nat, t: nat)
    requires cursor <= t && AssignmentAt(v, t) && ValueStart(v, t) < |v|
    ensures Masked(Spans(v, cursor), t, ValueStart(v, t))
    decreases |v| - cursor
  {
    hide ValueReplacement, IsSecretKeyName, ValueStart;
    var first := NextAssignment(v, cursor).value;
    var vs := ValueStart(v, first);
    if first == t {
      assert Spans(v, cursor)[0].from == vs;
    } else {
      BeforeValueIsNoKey(v, first, t);
      var r := ValueReplacement(v, first, vs);
      assert Spans(v, cursor) == [Span(vs, r.resume, r.marker)] + Spans(v, r.resume);
      if t < r.resume {
        assert Spans(v, cursor)[0].from <= t < Spans(v, cursor)[0].to;
      } else {
        EveryAssignmentIsMasked(v, r.resume, t);
        MaskedLater(Span(vs, r.resume, r.marker), Spans(v, r.resume), t, ValueStart(v, t));
      }
    }
  }

  lemma MaskedLater(first: Span, rest: seq<Span>, t: nat, vs: nat)
    requires Masked(rest, t, vs)
    ensures Masked([first] + rest, t, vs)
  {
    var i :| 0 <= i < |rest| && (rest[i].from == vs || rest[i].from <= t < rest[i].to);
    assert ([first] + rest)[i + 1] == rest[i];
  }

  /** Between a key and its value there is no room for another key. */
  lemma BeforeValueIsNoKey(v: string, first: nat, t: nat)
    requires AssignmentAt(v, first) && AssignmentAt(v, t) && first < t
    ensures ValueStart(v, first) <= t
  {
    var e := TokenEnd(v, first);
    assert forall k | e <= k < ValueStart(v, first) :: !IsKeyChar(v[k]);
  }

  // ---------------------------------------------------------------------------------------------
  // A second pass: the scanner looks neither behind a newline nor beyond the value's first character

  /** `u` is the text from `c` on, and `c` is where a scan may resume. */
  predicate Resumes(v: string, c: nat, u: string) {
    c <= |v| && u == v[c..] && (c < |v| ==> v[c] == '\n')
  }

  lemma SliceShifts(v: string, c: nat, u: string, i: nat, j: nat)
    requires Resumes(v, c, u) && i <= j <= |u|
    ensures |v| == c + |u| && v[c + i..c + j] == u[i..j]
    ensures i < |u| ==> v[c + i] == u[i]
    ensures j < |u| ==> v[c + j] == u[j]
  {
  }

  lemma RunsShift(v: string, c: nat, u: string, i: nat)
    requires Resumes(v, c, u) && i <= |u|
    ensures TokenEnd(v, c + i) == c + TokenEnd(u, i)
    ensures SkipSeparators(v, c + i) == c + SkipSeparators(u, i)
    ensures SkipBlanks(v, c + i) == c + SkipBlanks(u, i)
    ensures LineEnd(v, c + i) == c + LineEnd(u, i)
  {
    assert forall k | 0 <= k < |u| :: u[k] == v[c + k];
  }

  lemma SeparatorFollows(v: string, t: nat)
    requires t <= |v|
    ensures SeparatorOf(v, t) == SkipSeparators(v, TokenEnd(v, t))
  {
    hide TokenEnd, SkipSeparators;
  }

  lemma TokenShifts(v: string, c: nat, u: string, t: nat)
    requires Resumes(v, c, u) && t < |u|
    ensures |v| == c + |u| && TokenEnd(v, c + t) == c + TokenEnd(u, t)
    ensures SeparatorOf(v, c + t) == c + SeparatorOf(u, t)
    ensures v[c + t..c + TokenEnd(u, t)] == u[t..TokenEnd(u, t)]
    ensures SeparatorOf(u, t) < |u| ==> v[c + SeparatorOf(u, t)] == u[SeparatorOf(u, t)]
  {
    hide TokenEnd, SkipSeparators, SeparatorOf, Resumes, IsKeyChar, IsSeparator;
    var e := TokenEnd(u, t);
    var s := SkipSeparators(u, e);
    RunsShift(v, c, u, t);
    RunsShift(v, c, u, e);
    SliceShifts(v, c, u, t, e);
    SliceShifts(v, c, u, s, s);
    SeparatorFollows(u, t);
    SeparatorFollows(v, c + t);
    assert TokenEnd(v, c + t) == c + e;
    assert SeparatorOf(u, t) == s && SeparatorOf(v, c + t) == c + s;
    assert v[c + t..c + e] == u[t..e];
    assert s < |u| ==> v[c + s] == u[s];
  }

  lemma AssignmentShifts(v: string, c: nat, u: string, t: nat)
    requires Resumes(v, c, u) && t < |u|
    ensures c + t < |v| && (AssignmentAt(v, c + t) <==> AssignmentAt(u, t))
    ensures AssignmentAt(u, t) ==> ValueStart(v, c + t) == c + ValueStart(u, t)
  {
    hide IsSecretKeyName, TokenEnd, SeparatorOf, SkipBlanks, Resumes, IsKeyChar;
    TokenShifts(v, c, u, t);
    BeforeShifts(v, c, u, t);
    if SeparatorOf(u, t) < |u| {
      RunsShift(v, c, u, SeparatorOf(u, t) + 1);
    }
  }

  lemma BeforeShifts(v: string, c: nat, u: string, t: nat)
    requires Resumes(v, c, u) && t < |u|
    ensures c + t < |v| && v[c + t] == u[t]
    ensures t > 0 ==> v[c + t - 1] == u[t - 1]
    ensures t == 0 ==> !IsKeyChar(u[t])
  {
  }

  lemma NextAssignmentShifts(v: string, c: nat, u: string, i: nat)
    requires Resumes(v, c, u) && i <= |u|
    ensures NextAssignment(v, c + i)
         == match NextAssignment(u, i)
            case None => None
            case Some(t) => Some(c + t)
  {
    hide AssignmentAt;
    var next := NextAssignment(u, i);
    forall t | 0 <= t < |u| ensures AssignmentAt(v, c + t) <==> AssignmentAt(u, t) {
      AssignmentShifts(v, c, u, t);
    }
    var shifted := match next case None => None case Some(t) => Some(c + t);
    if next.Some? {
      FirstIsNoKey(u, next.value);
    }
    forall t | c + i <= t < |v| && (shifted.None? || t < shifted.value) ensures !AssignmentAt(v, t) {
      assert !AssignmentAt(u, t - c);
    }
    NextAssignmentIsUnique(v, c + i, NextAssignment(v, c + i), shifted);
  }

  lemma StartsWithShifts(v: string, c: nat, u: string, p: string, i: nat)
    requires Resumes(v, c, u) && i <= |u|
    ensures StartsWith(v, p, c + i) <==> StartsWith(u, p, i)
  {
    if i + |p| <= |u| {
      assert v[c + i..c + i + |p|] == u[i..i + |p|];
    }
  }

  lemma {:induction false} ClosingShifts(v: string, c: nat, u: string, d: string, i: nat)
    requires Resumes(v, c, u) && i <= |u| && (|d| == 1 || |d| == 3)
    ensures Closing(v, d, c + i)
         == match Closing(u, d, i)
            case None => None
            case Some(f) => Some(c + f)
    decreases |u| - i
  {
    hide StartsWith;
    if i < |u| {
      StartsWithShifts(v, c, u, d, i);
      StartsWithShifts(v, c, u, d + d, i);
      StartsWithFits(u, d, i);
      StartsWithFits(u, d + d, i);
      ClosingShifts(v, c, u, d, i + 1);
      if i + 2 <= |u| {
        ClosingShifts(v, c, u, d, i + 2);
      }
    }
  }

  lemma StartsWithFits(u: string, p: string, i: nat)
    ensures StartsWith(u, p, i) ==> i + |p| <= |u|
  {
  }

  lemma BlockEndStep(v: string, cursor: nat, indent: nat)
    requires cursor <= |v| && (cursor < |v| ==> v[cursor] == '\n')
    ensures cursor == |v| ==> BlockEnd(v, cursor, indent) == cursor
    ensures cursor < |v| ==>
      var end := LineEnd(v, cursor + 1);
      var line := v[cursor + 1..end];
      BlockEnd(v, cursor, indent) ==
        if !AllSpace(line) && Indentation(line) <= indent then cursor else BlockEnd(v, end, indent)
  {
    hide AllSpace, Indentation, LineEnd;
  }

  lemma {:induction false} BlockEndShifts(v: string, c: nat, u: string, i: nat, indent: nat)
    requires Resumes(v, c, u) && i <= |u| && (i < |u| ==> u[i] == '\n')
    ensures BlockEnd(v, c + i, indent) == c + BlockEnd(u, i, indent)
    decreases |u| - i
  {
    hide AllSpace, Indentation, LineEnd, Resumes, BlockEnd;
    SliceShifts(v, c, u, i, i);
    BlockEndStep(u, i, indent);
    BlockEndStep(v, c + i, indent);
    if i < |u| {
      RunsShift(v, c, u, i + 1);
      var end := LineEnd(u, i + 1);
      SliceShifts(v, c, u, i + 1, end);
      assert LineEnd(v, c + i + 1) == c + end;
      assert v[c + i + 1..c + end] == u[i + 1..end];
      BlockEndShifts(v, c, u, end, indent);
    }
  }

  lemma {:induction false} LineStartShifts(v: string, c: nat, u: string, i: nat)
    requires Resumes(v, c, u) && 0 < i <= |u|
    ensures LineStart(v, c + i) == c + LineStart(u, i)
  {
    if u[i - 1] != '\n' {
      LineStartShifts(v, c, u, i - 1);
    }
  }

  lemma DelimiterShifts(v: string, c: nat, u: string, vs: nat)
    requires Resumes(v, c, u) && vs < |u| && IsQuote(u[vs])
    ensures |v| == c + |u| && c + vs < |v| && v[c + vs] == u[vs] && Delimiter(v, c + vs) == Delimiter(u, vs)
  {
    hide Resumes, StartsWith;
    SliceShifts(v, c, u, vs, vs);
    StartsWithShifts(v, c, u, [u[vs], u[vs], u[vs]], vs);
  }

  lemma QuotedShifts(v: string, c: nat, u: string, vs: nat)
    requires Resumes(v, c, u) && vs < |u| && IsQuote(u[vs])
    ensures c + vs < |v| && IsQuote(v[c + vs])
    ensures var r := QuotedReplacement(u, vs);
      QuotedReplacement(v, c + vs) == Replacement(r.marker, c + r.resume)
  {
    hide Closing, LineEnd, StartsWith, Resumes, Delimiter;
    DelimiterShifts(v, c, u, vs);
    var d := Delimiter(u, vs);
    StartsWithFits(u, d, vs);
    ClosingShifts(v, c, u, d, vs + |d|);
    var following := Closing(u, d, vs + |d|);
    if following.Some? {
      RunsShift(v, c, u, following.value);
    }
  }

  lemma BaseIndentShifts(v: string, c: nat, u: string, t: nat)
    requires Resumes(v, c, u) && 0 < t <= |u|
    ensures c + t <= |v| && BaseIndent(v, c + t) == BaseIndent(u, t)
  {
    hide AllSpace, LineStart, Resumes;
    LineStartShifts(v, c, u, t);
    SliceShifts(v, c, u, LineStart(u, t), t);
  }

  lemma ReplacementShifts(v: string, c: nat, u: string, t: nat, vs: nat)
    requires Resumes(v, c, u) && 0 < t <= vs < |u| && !IsBlank(u[vs])
    ensures c + vs < |v| && v[c + vs] == u[vs]
    ensures var r := ValueReplacement(u, t, vs);
      ValueReplacement(v, c + t, c + vs) == Replacement(r.marker, c + r.resume)
  {
    hide BlockEnd, BaseIndent, LineEnd, QuotedReplacement, Resumes;
    SliceShifts(v, c, u, vs, vs);
    RunsShift(v, c, u, vs);
    if OpensBlock(u[vs]) {
      BaseIndentShifts(v, c, u, t);
      BlockEndShifts(v, c, u, LineEnd(u, vs), BaseIndent(u, t));
    } else if IsQuote(u[vs]) {
      QuotedShifts(v, c, u, vs);
    }
  }

  /** Where a scan resumes, it sees nothing of the text before. */
  lemma {:induction false} ScanShifts(v: string, c: nat, u: string, i: nat)
    requires Resumes(v, c, u) && i <= |u|
    ensures Scan(v, c + i) == Scan(u, i)
    decreases |u| - i
  {
    hide Scan, AssignmentAt, ValueReplacement, ValueStart, NextAssignment, Resumes;
    SliceShifts(v, c, u, i, |u|);
    NextAssignmentShifts(v, c, u, i);
    assert v[c + i..] == v[c + i..c + |u|] && u[i..] == u[i..|u|];
    ScanDefinition(v, c + i);
    ScanDefinition(u, i);
    var next := NextAssignment(u, i);
    if next.Some? {
      var t := next.value;
      FirstIsNoKey(u, t);
      BeforeShifts(v, c, u, t);
      AssignmentShifts(v, c, u, t);
      var vs := ValueStart(u, t);
      if vs < |u| {
        ReplacementShifts(v, c, u, t, vs);
        SliceShifts(v, c, u, i, vs);
        ScanShifts(v, c, u, ValueReplacement(u, t, vs).resume);
      }
    }
  }

  lemma FirstIsNoKey(u: string, t: nat)
    requires AssignmentAt(u, t)
    ensures t < |u| && IsKeyChar(u[t])
  {
  }

  /** Token and separators agree on texts that agree up to a character which ends both. */
  lemma RunsAgree(v: string, w: string, k: nat, end: nat)
    requires k <= end && end < |v| && end < |w| && v[..end + 1] == w[..end + 1]
    requires TokenEnd(v, k) <= end && SkipSeparators(v, TokenEnd(v, k)) <= end
    ensures TokenEnd(w, k) == TokenEnd(v, k)
    ensures SkipSeparators(w, TokenEnd(v, k)) == SkipSeparators(v, TokenEnd(v, k))
  {
    assert forall i | 0 <= i <= end :: v[i] == v[..end + 1][i] == w[i];
  }

  lemma AssignmentAgrees(v: string, w: string, k: nat, end: nat)
    requires k <= end && end < |v| && end < |w| && v[..end + 1] == w[..end + 1]
    requires IsKeyChar(v[k]) ==> TokenEnd(v, k) <= end && SkipSeparators(v, TokenEnd(v, k)) <= end
    ensures AssignmentAt(w, k) <==> AssignmentAt(v, k)
    ensures AssignmentAt(v, k) ==> SeparatorOf(w, k) == SeparatorOf(v, k)
  {
    hide IsSecretKeyName, TokenEnd, SkipSeparators;
    assert forall i | 0 <= i <= end :: v[i] == v[..end + 1][i] == w[i];
    if IsKeyChar(v[k]) {
      RunsAgree(v, w, k, end);
      assert w[k..TokenEnd(v, k)] == v[k..TokenEnd(v, k)];
    }
  }

  /** What `Scan` reads of an assignment lies before its value. */
  lemma PrefixDecides(v: string, w: string, t: nat, vs: nat)
    requires AssignmentAt(v, t) && vs == ValueStart(v, t) && vs < |v| && vs < |w| && !IsBlank(w[vs])
    requires w[..vs] == v[..vs]
    ensures AssignmentAt(w, t) && ValueStart(w, t) == vs
    ensures forall k | 0 <= k < t :: AssignmentAt(w, k) <==> AssignmentAt(v, k)
  {
    hide IsSecretKeyName, TokenEnd, SkipSeparators;
    assert forall i | 0 <= i < vs :: v[i] == v[..vs][i] == w[i];
    var e := SeparatorOf(v, t);
    assert v[..e + 1] == w[..e + 1] && v[..t + 1] == w[..t + 1];
    AssignmentAgrees(v, w, t, SeparatorOf(v, t));
    forall k | 0 <= k < t ensures AssignmentAt(w, k) <==> AssignmentAt(v, k) {
      AssignmentAgrees(v, w, k, t);
    }
  }

  // ---------------------------------------------------------------------------------------------
  // Idempotence

  predicate Clean(s: string) {
    forall i | 0 <= i < |s| :: s[i] != '\\' && !IsQuote(s[i]) && s[i] != '\n'
  }

  lemma StartsWithNot(w: string, p: string, i: nat, k: nat)
    requires k < |p| && (i + k < |w| ==> w[i + k] != p[k])
    ensures !StartsWith(w, p, i)
  {
    if i + |p| <= |w| {
      assert w[i..i + |p|][k] == w[i + k];
    }
  }

  /** Neither quotation marks nor escapes: the search for the closing mark passes straight through. */
  lemma {:induction false} ClosingSkips(w: string, d: string, i: nat, n: nat)
    requires (|d| == 1 || |d| == 3) && IsQuote(d[0])
    requires i + n <= |w| && Clean(w[i..i + n])
    ensures Closing(w, d, i) == Closing(w, d, i + n)
    decreases n
  {
    if n > 0 {
      assert w[i..i + n][0] == w[i];
      assert w[i + 1..i + n] == w[i..i + n][1..];
      StartsWithNot(w, d, i, 0);
      ClosingSkips(w, d, i + 1, n - 1);
    }
  }

  /** `w` holds the marker at `vs`, and nothing more on that line. */
  ghost predicate MarkerAt(w: string, vs: nat, marker: string) {
    && vs + |marker| <= |w| && w[vs..vs + |marker|] == marker
    && (vs + |marker| < |w| ==> w[vs + |marker|] == '\n')
  }

  lemma PlainMarkerStays(w: string, t: nat, vs: nat)
    requires t <= vs && MarkerAt(w, vs, REDACTED)
    ensures vs < |w| && w[vs] == '[' && ValueReplacement(w, t, vs) == Replacement(REDACTED, vs + |REDACTED|)
  {
    assert w[vs] == w[vs..vs + |REDACTED|][0];
    assert forall k | vs <= k < vs + |REDACTED| :: w[k] == REDACTED[k - vs];
    assert Clean(REDACTED);
    LineEndIs(w, vs, vs + |REDACTED|);
  }

  lemma LineEndIs(w: string, i: nat, e: nat)
    requires i <= e <= |w| && (e < |w| ==> w[e] == '\n')
    requires forall k | i <= k < e :: w[k] != '\n'
    ensures LineEnd(w, i) == e
  {
  }

  lemma DelimiterIs(w: string, vs: nat, d: string)
    requires IsDelimiter(d) && vs + |d| < |w| && w[vs..vs + |d|] == d && w[vs + |d|] == '['
    ensures IsQuote(w[vs]) && Delimiter(w, vs) == d
  {
    assert w[vs] == w[vs..vs + |d|][0];
    if |d| == 1 {
      StartsWithNot(w, [w[vs], w[vs], w[vs]], vs, 1);
    } else {
      assert d == [w[vs], w[vs], w[vs]];
    }
  }

  lemma ClosesAt(w: string, d: string, end: nat)
    requires IsDelimiter(d) && end + |d| <= |w| && w[end..end + |d|] == d
    requires end + |d| < |w| ==> w[end + |d|] == '\n'
    ensures Closing(w, d, end) == Some(end + |d|)
  {
    if |d| == 1 {
      StartsWithNot(w, d + d, end, 1);
    }
  }

  function QuotedMarker(d: string, closed: bool): string {
    if closed then d + REDACTED + d else d + REDACTED
  }

  lemma ThreeParts(a: string, b: string, c: string)
    ensures var s := a + b + c;
            s[0..|a|] == a && s[|a|..|a| + |b|] == b && s[|a| + |b|..|s|] == c
  {
  }

  lemma QuotedMarkerParts(w: string, vs: nat, d: string, closed: bool)
    requires IsDelimiter(d) && MarkerAt(w, vs, QuotedMarker(d, closed))
    ensures var inner := vs + |d|;
      var end := inner + |REDACTED|;
      && end <= |w| && w[vs..inner] == d && w[inner..end] == REDACTED && w[vs] == d[0] && w[inner] == '['
      && (closed ==> end + |d| <= |w| && w[end..end + |d|] == d)
  {
    var marker := QuotedMarker(d, closed);
    var inner := vs + |d|;
    var end := inner + |REDACTED|;
    ThreeParts(d, REDACTED, if closed then d else "");
    assert marker == d + REDACTED + if closed then d else "";
    SliceOfSlice(w, vs, marker, 0, |d|);
    SliceOfSlice(w, vs, marker, |d|, |d| + |REDACTED|);
    assert vs + 0 == vs && vs + |d| == inner && vs + (|d| + |REDACTED|) == end;
    assert w[vs..inner] == marker[0..|d|] == d;
    assert w[inner..end] == marker[|d|..|d| + |REDACTED|] == REDACTED;
    assert w[vs] == w[vs..inner][0] && w[inner] == w[inner..end][0] == REDACTED[0];
    if closed {
      assert |marker| == |d| + |REDACTED| + |d| && vs + |marker| == end + |d|;
      SliceOfSlice(w, vs, marker, |d| + |REDACTED|, |marker|);
      assert w[end..end + |d|] == marker[|d| + |REDACTED|..|marker|] == d;
    }
  }

  lemma SliceOfSlice(w: string, i: nat, s: string, a: nat, b: nat)
    requires a <= b <= |s| && i + |s| <= |w| && w[i..i + |s|] == s
    ensures w[i + a..i + b] == s[a..b]
  {
    forall k | 0 <= k < b - a ensures w[i + a..i + b][k] == s[a..b][k] {
      assert w[i..i + |s|][a + k] == w[i + a + k];
    }
  }

  lemma QuotedMarkerCloses(w: string, vs: nat, d: string, closed: bool)
    requires IsDelimiter(d) && MarkerAt(w, vs, QuotedMarker(d, closed))
    requires !closed ==> vs + |QuotedMarker(d, closed)| == |w|
    ensures var end := vs + |d| + |REDACTED|;
      vs + |d| <= |w| && Closing(w, d, vs + |d|) == if closed then Some(end + |d|) else None
  {
    QuotedMarkerParts(w, vs, d, closed);
    var end := vs + |d| + |REDACTED|;
    assert Clean(REDACTED);
    ClosingSkips(w, d, vs + |d|, |REDACTED|);
    if closed {
      ClosesAt(w, d, end);
    }
  }

  /** A quoted marker, closed or left open at the end of the text, is its own replacement. */
  lemma QuotedMarkerStays(w: string, t: nat, vs: nat, d: string, closed: bool)
    requires t <= vs && IsDelimiter(d) && MarkerAt(w, vs, QuotedMarker(d, closed))
    requires !closed ==> vs + |QuotedMarker(d, closed)| == |w|
    ensures vs < |w| && IsQuote(w[vs])
    ensures ValueReplacement(w, t, vs) == Replacement(QuotedMarker(d, closed), vs + |QuotedMarker(d, closed)|)
  {
    hide Closing, Delimiter, LineEnd;
    QuotedMarkerParts(w, vs, d, closed);
    DelimiterIs(w, vs, d);
    QuotedMarkerCloses(w, vs, d, closed);
    if closed {
      var following := vs + |QuotedMarker(d, closed)|;
      LineEndIs(w, following, following);
    }
  }

  /** A marker followed by the end of a line or of the text replaces itself. */
  lemma MarkerStays(v: string, w: string, t: nat, vs: nat)
    requires t <= vs < |v| && !IsBlank(v[vs])
    requires MarkerAt(w, vs, ValueReplacement(v, t, vs).marker)
    requires ValueReplacement(v, t, vs).resume == |v| ==> vs + |ValueReplacement(v, t, vs).marker| == |w|
    ensures vs < |w| && !IsBlank(w[vs])
    ensures var marker := ValueReplacement(v, t, vs).marker;
      ValueReplacement(w, t, vs) == Replacement(marker, vs + |marker|)
  {
    hide Closing, LineEnd, BlockEnd, BaseIndent, MarkerAt;
    if OpensBlock(v[vs]) || !IsQuote(v[vs]) {
      PlainMarkerStays(w, t, vs);
    } else {
      var d := Delimiter(v, vs);
      assert IsDelimiter(d);
      QuotedMarkerStays(w, t, vs, d, Closing(v, d, vs + |d|).Some?);
    }
  }

  lemma ScanUnfolds(v: string, t: nat, vs: nat)
    requires NextAssignment(v, 0) == Some(t) && vs == ValueStart(v, t) && vs < |v|
    ensures var r := ValueReplacement(v, t, vs);
      Scan(v, 0) == v[..vs] + r.marker + Scan(v, r.resume)
  {
    assert v[0..vs] == v[..vs];
  }

  lemma ScanKeepsNewline(v: string, c: nat)
    requires c <= |v| && (c < |v| ==> v[c] == '\n')
    ensures Scan(v, c) == "" <==> c == |v|
    ensures c < |v| ==> Scan(v, c)[0] == '\n'
  {
    hide ValueReplacement, IsSecretKeyName;
    var next := NextAssignment(v, c);
    if next.Some? {
      FirstIsNoKey(v, next.value);
    }
  }

  /** Scanning its own output again changes nothing. */
  lemma {:induction false} ScanIsIdempotent(v: string)
    ensures Scan(Scan(v, 0), 0) == Scan(v, 0)
    decreases |v|
  {
    hide Scan, AssignmentAt, NextAssignment, ValueStart, ValueReplacement;
    var next := NextAssignment(v, 0);
    if next.None? || ValueStart(v, next.value) == |v| {
      ScanDefinition(v, 0);
      assert v[0..] == v;
    } else {
      var t := next.value;
      FirstIsNoKey(v, t);
      var vs := ValueStart(v, t);
      var r := ValueReplacement(v, t, vs);
      var rest := Scan(v, r.resume);
      var w := v[..vs] + r.marker + rest;
      ScanUnfolds(v, t, vs);
      assert Scan(v, 0) == w;
      ScanKeepsNewline(v, r.resume);
      assert MarkerAt(w, vs, r.marker);
      MarkerStays(v, w, t, vs);
      PrefixDecides(v, w, t, vs);
      SameNext(v, w, t);
      ScanUnfolds(w, t, vs);
      var behind := vs + |r.marker|;
      assert w[..vs] == v[..vs] && w[behind..] == rest;
      ScanShifts(w, behind, rest, 0);
      var u := v[r.resume..];
      ScanShifts(v, r.resume, u, 0);
      ScanIsIdempotent(u);
    }
  }

  lemma SameNext(v: string, w: string, t: nat)
    requires NextAssignment(v, 0) == Some(t) && AssignmentAt(w, t)
    requires forall k | 0 <= k < t :: AssignmentAt(w, k) <==> AssignmentAt(v, k)
    ensures NextAssignment(w, 0) == Some(t)
  {
    NextAssignmentIsUnique(w, 0, NextAssignment(w, 0), Some(t));
  }
}
