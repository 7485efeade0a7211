/**
 Which keys the guidance scanner recognises: the vocabulary of secrets, word by word
 (src/devloop/redaction.py:46-75, 323-342).
 */
module GuidanceNames {
  import opened GuidanceScanner
  import GuidanceText

  /** Where the `k`-th part starts. */
  function Offset(parts: seq<string>, k: nat): nat
    requires k <= |parts|
  {
    if k == 0 then 0 else Offset(parts, k - 1) + |parts[k - 1]| + 1
  }

  lemma {:induction false} OffsetShifts(parts: seq<string>, rest: seq<string>, k: nat, shift: int)
    requires k <= |rest| && k + shift <= |parts| && shift in {0, 1}
    requires shift == 1 ==> parts == [""] + rest
    requires shift == 0 ==> |parts| == |rest| && k > 0 && |parts[0]| == |rest[0]| + 1 && parts[1..] == rest[1..]
    ensures Offset(parts, k + shift) == Offset(rest, k) + 1
  {
    if shift == 1 && k == 0 {
      assert Offset(parts, 1) == Offset(parts, 0) + |parts[0]| + 1;
    } else if shift == 0 && k == 1 {
      assert Offset(parts, 1) == Offset(parts, 0) + |parts[0]| + 1 && Offset(rest, 1) == Offset(rest, 0) + |rest[0]| + 1;
    } else {
      OffsetShifts(parts, rest, k - 1, shift);
      assert shift == 1 ==> parts[k] == rest[k - 1];
      assert shift == 0 ==> parts[k - 1] == parts[1..][k - 2] == rest[1..][k - 2] == rest[k - 1];
    }
  }

  /** `s[i..j]` is one part: it joins nothing itself and stands between joining characters. */
  predicate IsPart(s: string, i: nat, j: nat) {
    && i <= j <= |s| && (forall k | i <= k < j :: s[k] != '_')
    && (i == 0 || s[i - 1] == '_') && (j == |s| || s[j] == '_')
  }

  lemma {:induction false} PartsAreParts(s: string, k: nat)
    requires k < |SplitParts(s)|
    ensures var i := Offset(SplitParts(s), k); var j := i + |SplitParts(s)[k]|;
      && IsPart(s, i, j) && s[i..j] == SplitParts(s)[k]
      && (k + 1 < |SplitParts(s)| <==> j < |s|)
  {
    var parts := SplitParts(s);
    if s != "" {
      var rest := SplitParts(s[1..]);
      var shift := if s[0] == '_' then 1 else 0;
      if k < shift {
      } else if shift == 0 && k == 0 {
        PartsAreParts(s[1..], 0);
      } else {
        PartsAreParts(s[1..], k - shift);
        OffsetShifts(parts, rest, k - shift, shift);
        PartMovesOn(s, Offset(rest, k - shift), Offset(rest, k - shift) + |rest[k - shift]|);
        assert parts[k] == rest[k - shift];
      }
    }
  }

  lemma PartMovesOn(s: string, i: nat, j: nat)
    requires s != "" && IsPart(s[1..], i, j) && (i == 0 ==> s[0] == '_')
    ensures IsPart(s, i + 1, j + 1) && s[i + 1..j + 1] == s[1..][i..j]
  {
    var rest := s[1..];
    forall k | i + 1 <= k < j + 1 ensures s[k] != '_' {
      assert rest[k - 1] == s[k];
    }
    assert i > 0 ==> rest[i - 1] == s[i];
    assert j < |rest| ==> rest[j] == s[j + 1];
    var here, there := s[i + 1..j + 1], rest[i..j];
    assert |here| == |there| && forall k | 0 <= k < |here| :: here[k] == s[i + 1 + k] == rest[i + k] == there[k];
  }

  lemma {:induction false} PartStartingAt(s: string, i: nat) returns (k: nat)
    requires i <= |s| && (i == 0 || s[i - 1] == '_')
    ensures k < |SplitParts(s)| && Offset(SplitParts(s), k) == i
  {
    if i == 0 {
      k := 0;
    } else {
      var parts, rest := SplitParts(s), SplitParts(s[1..]);
      assert i > 1 ==> s[1..][i - 2] == s[i - 1];
      k := PartStartingAt(s[1..], i - 1);
      if s[0] == '_' {
        OffsetShifts(parts, rest, k, 1);
        k := k + 1;
      } else {
        OffsetShifts(parts, rest, k, 0);
      }
    }
  }

  /** A part is determined by where it starts. */
  lemma PartsEnd(s: string, i: nat, j: nat, e: nat)
    requires IsPart(s, i, j) && IsPart(s, i, e)
    ensures j == e
  {
  }

  lemma PartIs(s: string, i: nat, j: nat) returns (k: nat)
    requires IsPart(s, i, j)
    ensures k < |SplitParts(s)| && SplitParts(s)[k] == s[i..j] && Offset(SplitParts(s), k) == i
    ensures k + 1 < |SplitParts(s)| <==> j < |s|
  {
    k := PartStartingAt(s, i);
    PartsAreParts(s, k);
    PartsEnd(s, i, j, i + |SplitParts(s)[k]|);
  }

  lemma LowerSpells(s: string, k: nat)
    requires k < |s|
    ensures LowerKey(s)[k] == '_' <==> GuidanceText.Joins(s[k])
    ensures forall l: char | 'a' <= l <= 'z' || l == '_' :: GuidanceText.SpellsLetter(s[k], l) <==> LowerKey(s)[k] == l
  {
  }

  lemma LowerJoins(s: string)
    ensures |LowerKey(s)| == |s|
    ensures forall k | 0 <= k < |s| :: LowerKey(s)[k] == '_' <==> GuidanceText.Joins(s[k])
  {
    forall k | 0 <= k < |s| ensures LowerKey(s)[k] == '_' <==> GuidanceText.Joins(s[k]) {
      LowerSpells(s, k);
    }
  }

  /** The words of the vocabulary are of small letters and underscores. */
  predicate Small(word: string) {
    forall k | 0 <= k < |word| :: 'a' <= word[k] <= 'z' || word[k] == '_'
  }

  lemma SpelledIs(s: string, i: nat, j: nat, word: string)
    requires i <= j <= |s| && Small(word)
    ensures |LowerKey(s)| == |s| && (GuidanceText.Spells(s[i..j], word) <==> LowerKey(s)[i..j] == word)
  {
    hide GuidanceText.SpellsLetter, LowerKey;
    LowerJoins(s);
    var some, lower := s[i..j], LowerKey(s)[i..j];
    forall k | 0 <= k < j - i
      ensures k < |word| ==> (GuidanceText.SpellsLetter(some[k], word[k]) <==> lower[k] == word[k])
    {
      LowerSpells(s, i + k);
      assert some[k] == s[i + k] && lower[k] == LowerKey(s)[i + k];
    }
  }

  lemma EmptyPartIsEmptyWord(s: string, i: nat)
    requires IsPart(LowerKey(s), i, i)
    ensures !GuidanceText.NoEmptyWord(s)
  {
    hide LowerKey;
    LowerJoins(s);
  }

  lemma EmptyParts(s: string)
    ensures (forall k | 0 <= k < |SplitParts(LowerKey(s))| :: SplitParts(LowerKey(s))[k] != "")
       <==> GuidanceText.NoEmptyWord(s)
  {
    hide SplitParts, LowerKey;
    var l := LowerKey(s);
    var parts := SplitParts(l);
    LowerJoins(s);
    if GuidanceText.NoEmptyWord(s) {
      forall k | 0 <= k < |parts| ensures parts[k] != "" {
        PartsAreParts(l, k);
        var i := Offset(parts, k);
        if parts[k] == "" {
          EmptyPartIsEmptyWord(s, i);
        }
      }
    }
    if forall k | 0 <= k < |parts| :: parts[k] != "" {
      if s == "" {
        var k := PartIs(l, 0, 0);
      }
      forall k | 0 <= k < |s| && GuidanceText.Joins(s[k])
        ensures 0 < k < |s| - 1 && !GuidanceText.Joins(s[k + 1])
      {
        if k == 0 {
          var m := PartIs(l, 0, 0);
        }
        if k == |s| - 1 || GuidanceText.Joins(s[k + 1]) {
          var m := PartIs(l, k + 1, k + 1);
        }
      }
    }
  }

  /** The word stands in the key, as one or several whole words of it. */
  ghost predicate Named(s: string, word: string) {
    exists i: nat, j: nat :: GuidanceText.WholeWords(s, i, j) && GuidanceText.Spells(s[i..j], word)
  }

  /** A name of one word is found exactly as a part. */
  lemma SingleWord(s: string, word: string)
    requires word != "" && Small(word) && forall k | 0 <= k < |word| :: word[k] != '_'
    ensures word in SplitParts(LowerKey(s)) <==>
      Named(s, word)
  {
    hide SplitParts, LowerKey, GuidanceText.Spells;
    var l := LowerKey(s);
    var parts := SplitParts(l);
    LowerJoins(s);
    if word in parts {
      var k :| 0 <= k < |parts| && parts[k] == word;
      PartsAreParts(l, k);
      var i := Offset(parts, k);
      SpelledIs(s, i, i + |word|, word);
      assert GuidanceText.WholeWords(s, i, i + |word|);
    }
    if Named(s, word) {
      var i: nat, j: nat :| GuidanceText.WholeWords(s, i, j) && GuidanceText.Spells(s[i..j], word);
      SpelledIs(s, i, j, word);
      forall k | i <= k < j ensures l[k] != '_' {
        assert l[i..j][k - i] == l[k];
      }
      var k := PartIs(l, i, j);
    }
  }

  /** Two neighbouring parts are a name of two words, and the other way round. */
  lemma TwoWords(s: string, first: string, second: string)
    requires first != "" && Small(first) && forall k | 0 <= k < |first| :: first[k] != '_'
    requires second != "" && Small(second) && forall k | 0 <= k < |second| :: second[k] != '_'
    ensures Neighbours(SplitParts(LowerKey(s)), first, second) <==> Named(s, first + "_" + second)
  {
    hide SplitParts, LowerKey, GuidanceText.Spells;
    var l, word := LowerKey(s), first + "_" + second;
    LowerJoins(s);
    if Neighbours(SplitParts(l), first, second) {
      var k :| 0 <= k < |SplitParts(l)| - 1 && SplitParts(l)[k] == first && SplitParts(l)[k + 1] == second;
      var i, j := NeighboursStand(l, k, first, second);
      SpelledIs(s, i, j, word);
      assert GuidanceText.WholeWords(s, i, j);
    }
    if Named(s, word) {
      var i: nat, j: nat :| GuidanceText.WholeWords(s, i, j) && GuidanceText.Spells(s[i..j], word);
      SpelledIs(s, i, j, word);
      StandingAreNeighbours(l, i, j, first, second);
    }
  }

  lemma NeighboursStand(l: string, k: nat, first: string, second: string) returns (i: nat, j: nat)
    requires k + 1 < |SplitParts(l)| && SplitParts(l)[k] == first && SplitParts(l)[k + 1] == second
    ensures i <= j <= |l| && (i == 0 || l[i - 1] == '_') && (j == |l| || l[j] == '_')
    ensures l[i..j] == first + "_" + second
  {
    hide SplitParts;
    PartsAreParts(l, k);
    PartsAreParts(l, k + 1);
    i := Offset(SplitParts(l), k);
    var m := i + |first|;
    assert Offset(SplitParts(l), k + 1) == m + 1;
    j := m + 1 + |second|;
    assert l[i..j] == l[i..m] + [l[m]] + l[m + 1..j];
  }

  lemma StandingAreNeighbours(l: string, i: nat, j: nat, first: string, second: string)
    requires i <= j <= |l| && l[i..j] == first + "_" + second
    requires (i == 0 || l[i - 1] == '_') && (j == |l| || l[j] == '_')
    requires forall k | 0 <= k < |first| :: first[k] != '_'
    requires forall k | 0 <= k < |second| :: second[k] != '_'
    ensures Neighbours(SplitParts(l), first, second)
  {
    hide SplitParts, IsPart;
    var m := i + |first|;
    TwoParts(l, i, j, first, second);
    var k := PartIs(l, i, m);
    NextPart(l, k, m + 1, j);
  }

  /** The part behind the `k`-th starts after its joining character. */
  lemma NextPart(l: string, k: nat, i: nat, j: nat)
    requires IsPart(l, i, j) && k + 1 < |SplitParts(l)|
    requires Offset(SplitParts(l), k) + |SplitParts(l)[k]| + 1 == i
    ensures SplitParts(l)[k + 1] == l[i..j]
  {
    hide SplitParts;
    PartsAreParts(l, k + 1);
    assert Offset(SplitParts(l), k + 1) == i;
    PartsEnd(l, i, j, i + |SplitParts(l)[k + 1]|);
  }

  predicate Neighbours(parts: seq<string>, first: string, second: string) {
    exists k :: 0 <= k < |parts| - 1 && parts[k] == first && parts[k + 1] == second
  }

  lemma TwoParts(l: string, i: nat, j: nat, first: string, second: string)
    requires i <= j <= |l| && l[i..j] == first + "_" + second
    requires (i == 0 || l[i - 1] == '_') && (j == |l| || l[j] == '_')
    requires forall k | 0 <= k < |first| :: first[k] != '_'
    requires forall k | 0 <= k < |second| :: second[k] != '_'
    ensures var m := i + |first|;
      m < j && IsPart(l, i, m) && IsPart(l, m + 1, j) && l[i..m] == first && l[m + 1..j] == second
  {
    var m, whole := i + |first|, l[i..j];
    assert whole[|first|] == '_' && l[m] == whole[|first|];
    forall k | i <= k < m ensures l[k] == first[k - i] {
      assert whole[k - i] == l[k];
    }
    forall k | m < k < j ensures l[k] == second[k - m - 1] {
      assert whole[k - i] == l[k];
    }
  }

  lemma SingleNames(s: string)
    ensures var parts := SplitParts(LowerKey(s));
      && ("secret" in parts <==> Named(s, "secret")) && ("token" in parts <==> Named(s, "token"))
      && ("password" in parts <==> Named(s, "password")) && ("passwd" in parts <==> Named(s, "passwd"))
      && ("credential" in parts <==> Named(s, "credential")) && ("credentials" in parts <==> Named(s, "credentials"))
      && ("connectionstring" in parts <==> Named(s, "connectionstring")) && ("apikey" in parts <==> Named(s, "apikey"))
      && ("accesskey" in parts <==> Named(s, "accesskey")) && ("privatekey" in parts <==> Named(s, "privatekey"))
  {
    hide SplitParts, LowerKey, Named;
    SingleWord(s, "secret");
    SingleWord(s, "token");
    SingleWord(s, "password");
    SingleWord(s, "passwd");
    SingleWord(s, "credential");
    SingleWord(s, "credentials");
    SingleWord(s, "connectionstring");
    SingleWord(s, "apikey");
    SingleWord(s, "accesskey");
    SingleWord(s, "privatekey");
  }

  lemma DoubleNames(s: string)
    ensures var parts := SplitParts(LowerKey(s));
      && (Neighbours(parts, "connection", "string") <==> Named(s, "connection_string"))
      && (Neighbours(parts, "api", "key") <==> Named(s, "api_key"))
      && (Neighbours(parts, "access", "key") <==> Named(s, "access_key"))
      && (Neighbours(parts, "private", "key") <==> Named(s, "private_key"))
  {
    hide SplitParts, LowerKey, Named, Neighbours;
    TwoWords(s, "connection", "string");
    TwoWords(s, "api", "key");
    TwoWords(s, "access", "key");
    TwoWords(s, "private", "key");
    assert "connection" + "_" + "string" == "connection_string" && "api" + "_" + "key" == "api_key";
    assert "access" + "_" + "key" == "access_key" && "private" + "_" + "key" == "private_key";
  }

  /** A key is recognised exactly if none of its words is empty and some of them are the name of a secret. */
  lemma NamesMean(s: string)
    ensures IsSecretKeyName(s) <==> GuidanceText.NamesSecret(s)
  {
    hide SplitParts, LowerKey, GuidanceText.NoEmptyWord, GuidanceText.HasSecretWord, Named, Neighbours, IsSecretKeyName;
    EmptyParts(s);
    SingleNames(s);
    DoubleNames(s);
    VocabularyIs(s);
    SecretWords(s);
  }

  /** The vocabulary, part by part. */
  predicate HasName(parts: seq<string>) {
    || "secret" in parts || "token" in parts || "password" in parts || "passwd" in parts
    || "credential" in parts || "credentials" in parts
    || "connectionstring" in parts || "apikey" in parts || "accesskey" in parts || "privatekey" in parts
    || Neighbours(parts, "connection", "string")
    || Neighbours(parts, "api", "key") || Neighbours(parts, "access", "key") || Neighbours(parts, "private", "key")
  }

  lemma VocabularyIs(s: string)
    ensures var parts := SplitParts(LowerKey(s));
      IsSecretKeyName(s) <==> (forall k | 0 <= k < |parts| :: parts[k] != "") && HasName(parts)
  {
    hide SplitParts, LowerKey;
  }

  lemma SecretWords(s: string)
    ensures GuidanceText.HasSecretWord(s) <==>
      || Named(s, "secret") || Named(s, "token") || Named(s, "password") || Named(s, "passwd")
      || Named(s, "credential") || Named(s, "credentials")
      || Named(s, "connectionstring") || Named(s, "apikey") || Named(s, "accesskey") || Named(s, "privatekey")
      || Named(s, "connection_string") || Named(s, "api_key") || Named(s, "access_key") || Named(s, "private_key")
  {
    hide GuidanceText.Spells;
    var names := GuidanceText.SECRET_NAMES;
    if GuidanceText.HasSecretWord(s) {
      var i: nat, j: nat, n: nat :|
        GuidanceText.WholeWords(s, i, j) && n < |names| && GuidanceText.Spells(s[i..j], names[n]);
      assert Named(s, names[n]);
    }
    forall n: nat | n < |names| && Named(s, names[n]) ensures GuidanceText.HasSecretWord(s) {
      var i: nat, j: nat :| GuidanceText.WholeWords(s, i, j) && GuidanceText.Spells(s[i..j], names[n]);
    }
    assert names[0] == "secret" && names[1] == "token" && names[2] == "password" && names[3] == "passwd";
    assert names[4] == "credential" && names[5] == "credentials" && names[6] == "connectionstring";
    assert names[7] == "apikey" && names[8] == "accesskey" && names[9] == "privatekey";
    assert names[10] == "connection_string" && names[11] == "api_key";
    assert names[12] == "access_key" && names[13] == "private_key";
  }
}
