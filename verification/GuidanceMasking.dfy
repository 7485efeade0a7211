/**
 The output of the guidance scanner, described position by position: which values are replaced, with
 what, and up to where (src/devloop/redaction.py:260-397).
 */
module GuidanceMasking {
  import opened GuidanceNames
  import opened GuidanceScanner
  import opened Wrappers
  import T = GuidanceText

  /** The recognised assignments are exactly those of the text. */
  lemma AssignmentMeans(v: string, t: nat)
    ensures AssignmentAt(v, t) ==> T.IsAssignment(v, t, SeparatorOf(v, t))
    ensures forall colon: nat | T.IsAssignment(v, t, colon) :: AssignmentAt(v, t) && colon == SeparatorOf(v, t)
  {
    hide IsSecretKeyName, T.NamesSecret;
    if t < |v| {
      NamesMean(v[t..TokenEnd(v, t)]);
    }
    forall colon: nat | T.IsAssignment(v, t, colon) ensures AssignmentAt(v, t) && colon == SeparatorOf(v, t) {
      var e: nat :|
        && t < e <= colon < |v|
        && (t > 0 ==> !T.KeyCharacter(v[t - 1])) && (forall k | t <= k < e :: T.KeyCharacter(v[k]))
        && !T.KeyCharacter(v[e])
        && T.NamesSecret(v[t..e])
        && (forall k | e <= k < colon :: T.SpaceOrTab(v[k]) || T.QuotationMark(v[k]))
        && (v[colon] == ':' || v[colon] == '=');
      assert e == TokenEnd(v, t);
      assert colon == SkipSeparators(v, e);
    }
  }

  lemma ValueStartMeans(v: string, t: nat)
    requires AssignmentAt(v, t)
    ensures T.IsValueStart(v, SeparatorOf(v, t), ValueStart(v, t))
    ensures forall vs: nat | T.IsValueStart(v, SeparatorOf(v, t), vs) :: vs == ValueStart(v, t)
  {
    hide AssignmentAt, SeparatorOf;
  }

  lemma ReplacementMeans(v: string, t: nat, vs: nat)
    requires t <= vs < |v| && !IsBlank(v[vs])
    ensures var r := ValueReplacement(v, t, vs); T.IsReplacement(v, t, vs, r.marker, r.resume)
  {
    hide T.EndsBlock, T.OpensWith, T.IsQuotedReplacement, T.IsQuotedValue, T.IsLine, QuotedReplacement, BlockEnd, BaseIndent;
    if OpensBlock(v[vs]) {
      BlockMeans(v, t, vs);
    } else if IsQuote(v[vs]) {
      QuotedMeans(v, vs);
    } else {
      LineEndMeans(v, vs);
    }
  }

  function CutsOf(v: string, cursor: nat): seq<T.Cut>
    requires cursor <= |v|
    decreases |v| - cursor
  {
    match NextAssignment(v, cursor)
    case None => []
    case Some(t) =>
      var vs := ValueStart(v, t);
      if vs == |v| then []
      else
        var r := ValueReplacement(v, t, vs);
        [T.Cut(t, SeparatorOf(v, t), vs, r.marker, r.resume)] + CutsOf(v, r.resume)
  }

  lemma NextCut(v: string, cursor: nat, t: nat)
    requires cursor <= |v| && NextAssignment(v, cursor) == Some(t) && ValueStart(v, t) < |v|
    ensures var vs := ValueStart(v, t);
      var r := ValueReplacement(v, t, vs);
      T.IsCut(v, cursor, T.Cut(t, SeparatorOf(v, t), vs, r.marker, r.resume)) && cursor <= vs
  {
    hide T.IsAssignment, T.IsValueStart, T.IsReplacement, AssignmentAt, SeparatorOf, ValueReplacement;
    AssignmentMeans(v, t);
    ValueStartMeans(v, t);
    ReplacementMeans(v, t, ValueStart(v, t));
    forall k: nat, colon: nat | cursor <= k < t ensures !T.IsAssignment(v, k, colon) {
      AssignmentMeans(v, k);
    }
  }

  /** After the last cut no value is assigned any more. */
  lemma NoMoreCuts(v: string, cursor: nat)
    requires cursor <= |v|
    requires match NextAssignment(v, cursor) case None => true case Some(t) => ValueStart(v, t) == |v|
    ensures T.AreCuts(v, cursor, [])
  {
    hide T.IsAssignment, T.IsValueStart, AssignmentAt, SeparatorOf;
    forall t: nat, colon: nat, vs: nat | cursor <= t && T.IsAssignment(v, t, colon) && T.IsValueStart(v, colon, vs)
      ensures vs == |v|
    {
      AssignmentMeans(v, t);
      ValueStartMeans(v, t);
      var first := NextAssignment(v, cursor).value;
      if first < t {
        BeforeValueIsNoKey(v, first, t);
        AssignmentIsInside(v, t);
      }
    }
  }

  lemma AssignmentIsInside(v: string, t: nat)
    requires AssignmentAt(v, t)
    ensures t < |v|
  {
  }

  /** The scan makes exactly the cuts of the text. */
  lemma {:induction false} ScanCuts(v: string, cursor: nat)
    requires cursor <= |v|
    ensures T.AreCuts(v, cursor, CutsOf(v, cursor))
    ensures Scan(v, cursor) == T.Masked(v, cursor, CutsOf(v, cursor))
    decreases |v| - cursor
  {
    hide ValueReplacement, ValueStart, NextAssignment, T.IsCut, SeparatorOf;
    ScanDefinition(v, cursor);
    var next := NextAssignment(v, cursor);
    if next.Some? && ValueStart(v, next.value) < |v| {
      var vs := ValueStart(v, next.value);
      var r := ValueReplacement(v, next.value, vs);
      NextCut(v, cursor, next.value);
      ScanCuts(v, r.resume);
      assert CutsOf(v, cursor)[1..] == CutsOf(v, r.resume);
    } else {
      NoMoreCuts(v, cursor);
    }
  }

  /** What the scanner returns is the text with the value of every assignment it comes to replaced. */
  lemma ScanMasks(v: string)
    ensures T.IsMasked(v, Scan(v, 0))
  {
    hide Scan, CutsOf, T.AreCuts, T.Masked;
    ScanCuts(v, 0);
  }
}
