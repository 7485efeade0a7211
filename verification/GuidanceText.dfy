/**
 What the guidance scanner recognises in a text and what it makes of it, position by position and
 without the scanner's functions (src/devloop/redaction.py:46-75, 260-397).
 */
module GuidanceText {

  // ---------------------------------------------------------------------------------------------
  // Characters

  predicate KeyCharacter(c: char) {
    'a' <= c <= 'z' || 'A' <= c <= 'Z' || '0' <= c <= '9' || c == '_' || c == '-'
  }

  /** The two characters that join the words of a key. */
  predicate Joins(c: char) {
    c == '-' || c == '_'
  }

  predicate SpaceOrTab(c: char) {
    c == ' ' || c == '\t'
  }

  predicate QuotationMark(c: char) {
    c == '\'' || c == '\"'
  }

  predicate BlankCharacter(c: char) {
    c == ' ' || c == '\t' || c == '\r' || c == '\n'
  }

  /** What may follow the quotation mark that closes a value. */
  predicate MayFollow(c: char) {
    c == ' ' || c == '\t' || c == '\r' || c == '\n' || c == ',' || c == '.' || c == ';' || c == ':' || c == ')'
    || c == ']' || c == '}'
  }

  /** The characters that `str.strip` removes. */
  predicate Strippable(c: char) {
    var n := c as int;
    || n in {9, 10, 11, 12, 13, 28, 29, 30, 31, 32, 0x85, 0xA0, 0x1680, 0x2028, 0x2029, 0x202F, 0x205F, 0x3000}
    || n in {0x2000, 0x2001, 0x2002, 0x2003, 0x2004, 0x2005, 0x2006, 0x2007, 0x2008, 0x2009, 0x200A}
  }

  // ---------------------------------------------------------------------------------------------
  // Names

  /** `c` is the letter `l` in either case, or one of the joining characters for an underscore. */
  predicate SpellsLetter(c: char, l: char) {
    c == l || (Joins(c) && l == '_') || ('A' <= c <= 'Z' && 'a' <= l <= 'z' && c as int - 'A' as int == l as int - 'a' as int)
  }

  predicate Spells(s: string, word: string) {
    |s| == |word| && forall k | 0 <= k < |s| :: SpellsLetter(s[k], word[k])
  }

  /** The names of secrets, alone or as whole words of a longer key. */
  const SECRET_NAMES := [
    "secret", "token", "password", "passwd", "credential", "credentials",
    "connectionstring", "apikey", "accesskey", "privatekey",
    "connection_string", "api_key", "access_key", "private_key"]

  /** `s[i..j]` is a word of the key, or several whole ones. */
  predicate WholeWords(s: string, i: nat, j: nat) {
    i <= j <= |s| && (i == 0 || Joins(s[i - 1])) && (j == |s| || Joins(s[j]))
  }

  /** No word of the key is empty. */
  predicate NoEmptyWord(s: string) {
    s != "" && forall k | 0 <= k < |s| && Joins(s[k]) :: 0 < k < |s| - 1 && !Joins(s[k + 1])
  }

  ghost predicate HasSecretWord(s: string) {
    exists i: nat, j: nat, n: nat ::
      WholeWords(s, i, j) && n < |SECRET_NAMES| && Spells(s[i..j], SECRET_NAMES[n])
  }

  ghost predicate NamesSecret(s: string) {
    NoEmptyWord(s) && HasSecretWord(s)
  }

  // ---------------------------------------------------------------------------------------------
  // Lines and blocks

  /** `s..e` is a line of the text, or the rest of one, without its newline. */
  predicate IsLine(v: string, s: nat, e: nat) {
    s <= e <= |v| && (forall k | s <= k < e :: v[k] != '\n') && (e < |v| ==> v[e] == '\n')
  }

  /** The line is blank, or its first `base` + 1 characters are spaces and tabs. */
  predicate StaysInBlock(v: string, s: nat, e: nat, base: nat) {
    s <= e <= |v|
    && (|| (forall k | s <= k < e :: Strippable(v[k]))
        || (s + base < e && forall k | s <= k <= s + base :: SpaceOrTab(v[k])))
  }

  /** The line that holds position `t` starts at `s`. */
  predicate StartsLine(v: string, s: nat, t: nat) {
    s <= t <= |v| && (s == 0 || v[s - 1] == '\n') && forall k | s <= k < t :: v[k] != '\n'
  }

  /** The length of the white space before position `t` on its line, if there is nothing else. */
  ghost predicate IsBase(v: string, t: nat, base: nat) {
    exists s: nat :: StartsLine(v, s, t) && base == if forall k | s <= k < t :: Strippable(v[k]) then t - s else 0
  }

  /** The line after the newline at `p` ends at `e`. */
  predicate LineAfter(v: string, p: nat, e: nat) {
    p < |v| && v[p] == '\n' && IsLine(v, p + 1, e)
  }

  /**
   A block value at `vs`, assigned at `t`, ends at `cursor`: every line between them stays in the block,
   and the line after `cursor`, if there is one, does not.
   */
  ghost predicate EndsBlock(v: string, t: nat, vs: nat, cursor: nat) {
    exists first: nat, base: nat :: IsLine(v, vs, first) && IsBase(v, t, base) && BlockLines(v, first, base, cursor)
  }

  ghost predicate BlockLines(v: string, first: nat, base: nat, cursor: nat) {
    && first <= cursor <= |v| && (cursor < |v| ==> v[cursor] == '\n')
    && (forall p: nat, e: nat | first <= p < cursor && LineAfter(v, p, e) :: StaysInBlock(v, p + 1, e, base))
    && (forall e: nat | LineAfter(v, cursor, e) :: !StaysInBlock(v, cursor + 1, e, base))
  }

  // ---------------------------------------------------------------------------------------------
  // Quoted values

  predicate TextAt(v: string, i: nat, p: string) {
    i + |p| <= |v| && forall k | 0 <= k < |p| :: v[i + k] == p[k]
  }

  /** The mark at `p` closes the value: it is not one of two, and a single mark has nothing odd behind it. */
  predicate ClosesValue(v: string, d: string, p: nat) {
    && TextAt(v, p, d)
    && (|d| == 1 ==> !TextAt(v, p, d + d) && (p + 1 == |v| || MayFollow(v[p + 1])))
  }

  /** From `p` on to the next position looked at: over a doubled mark, over an escape, or over one character. */
  function Onward(v: string, d: string, p: nat): nat
    requires p < |v|
  {
    if (|d| == 1 && TextAt(v, p, d + d)) || (v[p] == '\\' && p + 1 < |v|) then p + 2 else p + 1
  }

  /** The positions looked at from `from` to `to`, none of them a closing mark. */
  ghost predicate Walks(v: string, d: string, path: seq<nat>, from: nat, to: nat) {
    && path != [] && path[0] == from && path[|path| - 1] == to
    && forall k | 0 <= k < |path| - 1 ::
         path[k] < |v| && !ClosesValue(v, d, path[k]) && path[k + 1] == Onward(v, d, path[k])
  }

  /** `mark` is the first closing mark at or after `from`. */
  ghost predicate FirstClosing(v: string, d: string, from: nat, mark: nat) {
    mark < |v| && ClosesValue(v, d, mark) && exists path :: Walks(v, d, path, from, mark)
  }

  ghost predicate NeverCloses(v: string, d: string, from: nat) {
    exists path, to: nat :: Walks(v, d, path, from, to) && to >= |v|
  }

  /** A value starts with three equal quotation marks, or else with one. */
  predicate OpensWith(v: string, vs: nat, d: string)
    requires vs < |v|
  {
    var q := v[vs];
    d == if vs + 3 <= |v| && v[vs + 1] == q && v[vs + 2] == q then [q, q, q] else [q]
  }

  // ---------------------------------------------------------------------------------------------
  // Assignments and their replacement

  /** A complete key at `t` names a secret and is assigned to by the character at `colon`. */
  ghost predicate IsAssignment(v: string, t: nat, colon: nat) {
    exists e: nat ::
      && t < e <= colon < |v|
      && (t > 0 ==> !KeyCharacter(v[t - 1])) && (forall k | t <= k < e :: KeyCharacter(v[k])) && !KeyCharacter(v[e])
      && NamesSecret(v[t..e])
      && (forall k | e <= k < colon :: SpaceOrTab(v[k]) || QuotationMark(v[k]))
      && (v[colon] == ':' || v[colon] == '=')
  }

  /** The first character after the assignment that is not blank, or the end of the text. */
  predicate IsValueStart(v: string, colon: nat, vs: nat) {
    && colon < vs <= |v| && (forall k | colon < k < vs :: BlankCharacter(v[k]))
    && (vs < |v| ==> !BlankCharacter(v[vs]))
  }

  const MASK := "[redacted]"

  /** What a value is replaced with, and where the text goes on. */
  ghost predicate IsReplacement(v: string, t: nat, vs: nat, marker: string, resume: nat)
    requires vs < |v|
  {
    if v[vs] == '|' || v[vs] == '>' then marker == MASK && EndsBlock(v, t, vs, resume)
    else if QuotationMark(v[vs]) then IsQuotedValue(v, vs, marker, resume)
    else marker == MASK && IsLine(v, vs, resume)
  }

  /** In its own quotation marks up to the end of the line behind them, or unclosed up to the end of the text. */
  ghost predicate IsQuotedReplacement(v: string, vs: nat, d: string, marker: string, resume: nat) {
    || (marker == d + MASK && resume == |v| && NeverCloses(v, d, vs + |d|))
    || (marker == d + MASK + d
        && exists mark: nat :: FirstClosing(v, d, vs + |d|, mark) && LineBehind(v, d, mark, resume))
  }

  /** The line on which the closing mark stands ends at `e`. */
  predicate LineBehind(v: string, d: string, mark: nat, e: nat) {
    IsLine(v, mark + |d|, e)
  }

  ghost predicate IsQuotedValue(v: string, vs: nat, marker: string, resume: nat)
    requires vs < |v|
  {
    exists d: string :: OpensWith(v, vs, d) && IsQuotedReplacement(v, vs, d, marker, resume)
  }

  datatype Cut = Cut(key: nat, colon: nat, value: nat, marker: string, resume: nat)

  /** The next assignment from `from` on, and the replacement of its value. */
  ghost predicate IsCut(v: string, from: nat, c: Cut) {
    && from <= c.key && IsAssignment(v, c.key, c.colon)
    && (forall t: nat, colon: nat | from <= t < c.key :: !IsAssignment(v, t, colon))
    && IsValueStart(v, c.colon, c.value) && c.value < |v|
    && IsReplacement(v, c.key, c.value, c.marker, c.resume)
  }

  /** The cuts follow on one another, and nothing is left to cut after the last. */
  ghost predicate AreCuts(v: string, from: nat, cuts: seq<Cut>)
    requires from <= |v|
    decreases |cuts|
  {
    if cuts == [] then
      forall t: nat, colon: nat, vs: nat | from <= t && IsAssignment(v, t, colon) && IsValueStart(v, colon, vs) :: vs == |v|
    else
      && IsCut(v, from, cuts[0])
      && from <= cuts[0].value < cuts[0].resume <= |v|
      && AreCuts(v, cuts[0].resume, cuts[1..])
  }

  /** The text with every cut replaced by its marker. */
  function Masked(v: string, from: nat, cuts: seq<Cut>): string
    decreases |cuts|
  {
    if from > |v| then ""
    else if cuts == [] then v[from..]
    else
      (if from <= cuts[0].value <= |v| then v[from..cuts[0].value] else "")
      + cuts[0].marker + Masked(v, cuts[0].resume, cuts[1..])
  }

  ghost predicate IsMasked(v: string, output: string) {
    exists cuts :: AreCuts(v, 0, cuts) && output == Masked(v, 0, cuts)
  }
}
