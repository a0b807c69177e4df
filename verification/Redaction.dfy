/**
 Masking the values of secret keys in text that goes to the persistent log.
 Positions are in characters: keys, blanks, quotes and signs of assignment are
 ASCII, so in UTF-8 the byte positions the scan stops at are the ends of characters.
 */
module Redaction {
  import opened Wrappers

  type Text = seq<char>

  const MASK: Text := ['*', '*', '*']

  function Lower(c: char): char {
    if 'A' <= c <= 'Z' then (c as int + 32) as char else c
  }

  /** `is_ascii_whitespace`, which leaves out the vertical tab, and `char::is_whitespace`: the characters
      with the property White_Space of Unicode. */
  predicate IsBlank(c: char) { c == ' ' || c == '\t' || c == '\n' || c == '\r' || c as int == 12 }
  predicate IsSpace(c: char) {
    var n := c as int;
    IsBlank(c) || n == 11 || n == 0x85 || n == 0xA0 || n == 0x1680 || 0x2000 <= n <= 0x200A
    || n == 0x2028 || n == 0x2029 || n == 0x202F || n == 0x205F || n == 0x3000
  }
  predicate IsStop(c: char) { IsSpace(c) || c == ',' || c == '}' || c == ']' || c == '&' }
  predicate IsAssign(c: char) { c == '=' || c == ':' }
  predicate IsQuote(c: char) { c == '"' || c == '\'' }

  /** A key has no character that the scan treats specially. */
  predicate IsKeyChar(c: char) {
    Lower(c) == c && !IsStop(c) && !IsAssign(c) && !IsQuote(c) && c != '*'
  }

  predicate IsKey(key: Text) { key != [] && forall i | 0 <= i < |key| :: IsKeyChar(key[i]) }

  predicate OccursAt(text: Text, key: Text, at: nat) {
    at + |key| <= |text| && forall i | 0 <= i < |key| :: Lower(text[at + i]) == key[i]
  }

  /** `find`: the leftmost occurrence. */
  function Find(text: Text, key: Text): (at: Option<nat>)
    ensures at.Some? ==> OccursAt(text, key, at.value)
    ensures forall p: nat | OccursAt(text, key, p) :: at.Some? && at.value <= p
  {
    if OccursAt(text, key, 0) then Some(0)
    else if text == [] then None
    else
      var later := Find(text[1..], key);
      assert forall p: nat | p > 0 && OccursAt(text, key, p) :: OccursAt(text[1..], key, p - 1) by { OccursLater(text, key); }
      match later { case None => None case Some(p) => Some(p + 1) }
  }

  lemma {:induction false} OccursLater(text: Text, key: Text)
    requires text != []
    ensures forall p: nat | p > 0 && OccursAt(text, key, p) :: OccursAt(text[1..], key, p - 1)
  {
    forall p: nat | p > 0 && OccursAt(text, key, p) ensures OccursAt(text[1..], key, p - 1) {
      forall i | 0 <= i < |key| ensures Lower(text[1..][p - 1 + i]) == key[i] {
        assert text[1..][p - 1 + i] == text[p + i];
      }
    }
  }

  /** How many blanks, characters that end a bare value, or characters other than `c` the text begins with. */
  function BlankRun(text: Text): (n: nat)
    ensures n <= |text| && (forall i | 0 <= i < n :: IsBlank(text[i])) && (n < |text| ==> !IsBlank(text[n]))
  {
    if text != [] && IsBlank(text[0]) then 1 + BlankRun(text[1..]) else 0
  }

  function BareRun(text: Text): (n: nat)
    ensures n <= |text| && (forall i | 0 <= i < n :: !IsStop(text[i])) && (n < |text| ==> IsStop(text[n]))
  {
    if text != [] && !IsStop(text[0]) then 1 + BareRun(text[1..]) else 0
  }

  function RunUntil(text: Text, c: char): (n: nat)
    ensures n <= |text| && (forall i | 0 <= i < n :: text[i] != c) && (n < |text| ==> text[n] == c)
  {
    if text != [] && text[0] != c then 1 + RunUntil(text[1..], c) else 0
  }

  function Blanks(n: nat): (blanks: Text)
    ensures |blanks| == n && forall i | 0 <= i < n :: blanks[i] == ' '
  {
    seq(n, _ => ' ')
  }

  /** What is written for the value the text begins with, and how much of the text that covers. */
  function Masked(text: Text): (m: (Text, nat))
    ensures m.1 <= |text|
  {
    if text != [] && IsQuote(text[0]) then
      var end := 1 + RunUntil(text[1..], text[0]);
      if end < |text| then ([text[0]] + MASK + [text[0]], end + 1) else ([text[0]] + MASK, |text|)
    else (MASK, BareRun(text))
  }

  /** What is written after a key: nothing unless blanks and a sign of assignment follow. */
  function Assigned(text: Text): (m: (Text, nat))
    ensures m.1 <= |text|
  {
    var sign := BlankRun(text);
    if sign < |text| && IsAssign(text[sign]) then
      var v := sign + 1 + BlankRun(text[sign + 1..]);
      var (masked, used) := Masked(text[v..]);
      (text[..sign + 1] + Blanks(v - (sign + 1)) + masked, v + used)
    else ([], 0)
  }

  /** One pass for one key. */
  function Redact(text: Text, key: Text): Text
    requires key != []
    decreases |text|
  {
    match Find(text, key)
    case None => text
    case Some(start) =>
      var after := start + |key|;
      var (written, used) := Assigned(text[after..]);
      text[..after] + written + Redact(text[after + used..], key)
  }

  method SkipBlanks(input: Text, from: nat) returns (at: nat, blanks: Text)
    requires from <= |input|
    ensures at == from + BlankRun(input[from..]) && blanks == Blanks(at - from)
  {
    at, blanks := from, [];
    while at < |input| && IsBlank(input[at])
      invariant from <= at <= |input| && from + BlankRun(input[from..]) == at + BlankRun(input[at..])
      invariant blanks == Blanks(at - from)
    {
      at, blanks := at + 1, blanks + [' '];
    }
  }

  method MaskValue(input: Text, v: nat) returns (masked: Text, next: nat)
    requires v <= |input|
    ensures v <= next <= |input| && (masked, next - v) == Masked(input[v..])
  {
    if v < |input| && IsQuote(input[v]) {
      var quote := input[v];
      masked := [quote] + MASK;
      assert input[v..][1..] == input[v + 1..];
      var end := v + 1 + RunUntil(input[v + 1..], quote);
      if end < |input| {
        return masked + [quote], end + 1;
      }
      return masked, |input|;
    }
    return MASK, v + BareRun(input[v..]);
  }

  method MaskAfterKey(input: Text, after: nat) returns (written: Text, next: nat)
    requires after <= |input|
    ensures after <= next <= |input| && (written, next - after) == Assigned(input[after..])
  {
    hide BlankRun, Masked, Blanks;
    ghost var text := input[after..];
    var sign, _ := SkipBlanks(input, after);
    if sign == |input| || !IsAssign(input[sign]) {
      return [], after;
    }
    var v, blanks := SkipBlanks(input, sign + 1);
    assert text[sign - after + 1..] == input[sign + 1..] && text[v - after..] == input[v..];
    assert text[..sign - after + 1] == input[after..sign + 1];
    var masked, rest := MaskValue(input, v);
    written, next := input[after..sign + 1] + blanks + masked, rest;
  }

  lemma {:induction false} RedactStep(input: Text, key: Text, cursor: nat, start: nat, written: Text, next: nat)
    requires key != [] && cursor <= start && start + |key| <= next <= |input|
    requires Find(input[cursor..], key) == Some(start - cursor)
    requires Assigned(input[start + |key|..]) == (written, next - (start + |key|))
    ensures Redact(input[cursor..], key) == input[cursor..start + |key|] + written + Redact(input[next..], key)
  {
    hide Find, Assigned, OccursAt;
    var text := input[cursor..];
    assert text[start - cursor + |key|..] == input[start + |key|..] && text[next - cursor..] == input[next..];
    assert text[..start - cursor + |key|] == input[cursor..start + |key|];
  }

  method RedactPersistentKeyValue(input: Text, key: Text) returns (out: Text)
    requires key != []
    ensures out == Redact(input, key)
  {
    hide Assigned, Find, Redact, OccursAt;
    out := [];
    var cursor := 0;
    assert input[0..] == input;
    while true
      invariant cursor <= |input|
      invariant Redact(input, key) == out + Redact(input[cursor..], key)
      decreases |input| - cursor
    {
      var relative := Find(input[cursor..], key);
      if relative.None? {
        NothingFound(input[cursor..], key);
        break;
      }
      FoundInside(input[cursor..], key);
      var start := cursor + relative.value;
      var written, next := MaskAfterKey(input, start + |key|);
      RedactStep(input, key, cursor, start, written, next);
      ghost var rest := Redact(input[next..], key);
      assert out + (input[cursor..start + |key|] + written + rest) == (out + input[cursor..start] + input[start..start + |key|] + written) + rest;
      out := out + input[cursor..start];
      out := out + input[start..start + |key|];
      out, cursor := out + written, next;
    }
    out := out + input[cursor..];
  }

  lemma {:induction false} NothingFound(text: Text, key: Text)
    requires key != [] && Find(text, key).None?
    ensures Redact(text, key) == text
  {
  }

  lemma {:induction false} FoundInside(text: Text, key: Text)
    requires key != [] && Find(text, key).Some?
    ensures Find(text, key).value + |key| <= |text|
  {
  }

  function RedactAll(text: Text, keys: seq<Text>): Text
    requires forall i | 0 <= i < |keys| :: keys[i] != []
    decreases |keys|
  {
    if keys == [] then text else RedactAll(Redact(text, keys[0]), keys[1..])
  }

  method RedactEveryKey(text: Text, keys: seq<Text>) returns (output: Text)
    requires forall i | 0 <= i < |keys| :: keys[i] != []
    ensures output == RedactAll(text, keys)
  {
    hide Redact;
    output := text;
    for i := 0 to |keys|
      invariant RedactAll(text, keys) == RedactAll(output, keys[i..])
    {
      assert keys[i..][1..] == keys[i + 1..];
      output := RedactPersistentKeyValue(output, keys[i]);
    }
  }

  function Take(text: Text, n: nat): Text {
    if |text| <= n then text else text[..n]
  }
}
