/**
 What one pass of the masking makes of a text, said of its characters: where a
 key is read, what separates it from its value, and where the value ends.
 */
module RedactedText {
  import opened Wrappers
  import opened Redaction
  import opened RedactionProofs
  import opened LogSanitizer

  /** The blanks of ASCII that the scan skips: tab, line feed, form feed, carriage return, space. */
  const BLANKS: seq<int> := [9, 10, 12, 13, 32]

  /** The white space of Unicode, and `&`, `,`, `]` and `}`. */
  const ENDS: seq<int> := [
    9, 10, 11, 12, 13, 32, 0x85, 0xA0, 0x1680,
    0x2000, 0x2001, 0x2002, 0x2003, 0x2004, 0x2005, 0x2006, 0x2007, 0x2008, 0x2009, 0x200A,
    0x2028, 0x2029, 0x202F, 0x205F, 0x3000, 38, 44, 93, 125]

  predicate AllBlank(text: Text) { forall i | 0 <= i < |text| :: text[i] as int in BLANKS }

  predicate Bare(value: Text) { forall i | 0 <= i < |value| :: value[i] as int !in ENDS }

  predicate Without(text: Text, c: char) { forall i | 0 <= i < |text| :: text[i] != c }

  predicate BeginsIn(text: Text, codes: seq<int>) { text != [] && text[0] as int in codes }

  predicate BeginsQuoted(text: Text) { text != [] && (text[0] == '"' || text[0] == '\'') }

  /** The key stands at the place, each letter in either case. */
  predicate ReadsAt(text: Text, key: Text, at: nat) {
    at + |key| <= |text| && forall i | 0 <= i < |key| ::
      text[at + i] == key[i] || ('A' <= text[at + i] <= 'Z' && text[at + i] as int + 32 == key[i] as int)
  }

  /** The key is written in small letters. */
  predicate SmallLetters(key: Text) { key != [] && forall i | 0 <= i < |key| :: !('A' <= key[i] <= 'Z') }

  /** The key is first read at the place. */
  predicate FirstAt(text: Text, key: Text, at: nat) {
    ReadsAt(text, key, at) && forall p: nat | p < at :: !ReadsAt(text, key, p)
  }

  predicate Nowhere(text: Text, key: Text) {
    forall p: nat | p <= |text| :: !ReadsAt(text, key, p)
  }

  // ---------- the characters ----------

  lemma {:induction false} SameCharacters()
    ensures forall c: char :: IsBlank(c) <==> c as int in BLANKS
    ensures forall c: char :: IsStop(c) <==> c as int in ENDS
    ensures forall c: char :: IsQuote(c) <==> c == '"' || c == '\''
    ensures forall c: char :: IsAssign(c) <==> c == '=' || c == ':'
  {
  }

  lemma {:induction false} ReadsIsOccurs(text: Text, key: Text, at: nat)
    requires SmallLetters(key)
    ensures ReadsAt(text, key, at) <==> OccursAt(text, key, at)
  {
  }

  lemma {:induction false} FirstIsFound(text: Text, key: Text, at: nat)
    requires SmallLetters(key) && FirstAt(text, key, at)
    ensures Find(text, key) == Some(at) && at + |key| <= |text|
  {
    hide ReadsAt, OccursAt;
    ReadsIsOccurs(text, key, at);
    var p := Find(text, key).value;
    ReadsIsOccurs(text, key, p);
    assert at + |key| <= |text| by { ReadsFits(text, key, at); }
  }

  lemma {:induction false} ReadsFits(text: Text, key: Text, at: nat)
    requires ReadsAt(text, key, at)
    ensures at + |key| <= |text|
  {
  }

  // ---------- one pass ----------

  /** A text in which the key is nowhere read passes unchanged. */
  lemma {:induction false} NothingToMask(text: Text, key: Text)
    requires SmallLetters(key) && Nowhere(text, key)
    ensures Redact(text, key) == text
  {
    hide ReadsAt, OccursAt;
    if Find(text, key).Some? {
      FoundFits(text, key);
      ReadsIsOccurs(text, key, Find(text, key).value);
    }
  }

  lemma {:induction false} PassAt(head: Text, key: Text, tail: Text, at: nat, written: Text, used: nat)
    requires SmallLetters(key) && FirstAt(head + tail, key, at) && |head| == at + |key|
    requires Assigned(tail) == (written, used) && used <= |tail|
    ensures Redact(head + tail, key) == head + written + Redact(tail[used..], key)
  {
    hide FirstAt, Assigned, Redact, Find;
    FirstIsFound(head + tail, key, at);
    PassUnfolds(head + tail, key);
    assert (head + tail)[at + |key|..] == tail && (head + tail)[..at + |key|] == head;
    assert (head + tail)[at + |key| + used..] == tail[used..];
    assert head + written + Redact(tail[used..], key) == head + (written + Redact(tail[used..], key));
  }

  lemma {:induction false} AssignedReads(lead: Text, sign: char, gap: Text, tail: Text)
    requires AllBlank(lead) && sign in ['=', ':'] && AllBlank(gap) && !BeginsIn(tail, BLANKS)
    ensures Assigned(lead + [sign] + gap + tail) ==
            (lead + [sign] + seq(|gap|, _ => ' ') + Masked(tail).0, |lead| + 1 + |gap| + Masked(tail).1)
  {
    SameCharacters();
    hide Masked, IsBlank, IsStop, IsSpace, IsQuote, BlankRun;
    var text := lead + [sign] + gap + tail;
    assert text == lead + ([sign] + gap + tail);
    BlanksStop(lead, [sign] + gap + tail);
    assert text[|lead| + 1..] == gap + tail;
    BlanksStop(gap, tail);
    assert text[|lead| + 1 + |gap|..] == tail;
    assert text[..|lead| + 1] == lead + [sign];
    assert Blanks(|gap|) == seq(|gap|, _ => ' ');
  }

  lemma {:induction false} ValuePass(before: Text, name: Text, lead: Text, sign: char, gap: Text, tail: Text, key: Text, written: Text, used: nat)
    requires SmallLetters(key) && |name| == |key| && FirstAt(before + name + lead + [sign] + gap + tail, key, |before|)
    requires AllBlank(lead) && sign in ['=', ':'] && AllBlank(gap) && !BeginsIn(tail, BLANKS)
    requires Masked(tail) == (written, used) && used <= |tail|
    ensures Redact(before + name + lead + [sign] + gap + tail, key) ==
            before + name + lead + [sign] + seq(|gap|, _ => ' ') + written + Redact(tail[used..], key)
  {
    hide FirstAt, Masked, AllBlank, BeginsIn, Assigned, Redact;
    var head, rest := before + name, lead + [sign] + gap + tail;
    var spaces := seq(|gap|, _ => ' ');
    assert head + rest == before + name + lead + [sign] + gap + tail;
    AssignedReads(lead, sign, gap, tail);
    PassAt(head, key, rest, |before|, lead + [sign] + spaces + written, |lead| + 1 + |gap| + used);
    assert rest[|lead| + 1 + |gap| + used..] == tail[used..];
    assert head + (lead + [sign] + spaces + written) == before + name + lead + [sign] + spaces + written;
  }

  /** A bare value goes up to the first white space, `&`, `,`, `]` or `}` or the end: exactly it becomes
      `***`, and what follows is passed on in turn. */
  lemma {:induction false} BareValueIsMasked(before: Text, name: Text, lead: Text, sign: char, gap: Text, value: Text, rest: Text, key: Text)
    requires SmallLetters(key) && |name| == |key| && FirstAt(before + name + lead + [sign] + gap + (value + rest), key, |before|)
    requires AllBlank(lead) && sign in ['=', ':'] && AllBlank(gap)
    requires Bare(value) && !BeginsQuoted(value + rest) && (rest == [] || BeginsIn(rest, ENDS))
    requires value == [] ==> !BeginsIn(rest, BLANKS)
    ensures Redact(before + name + lead + [sign] + gap + (value + rest), key) ==
            before + name + lead + [sign] + seq(|gap|, _ => ' ') + ['*', '*', '*'] + Redact(rest, key)
  {
    hide FirstAt, AllBlank, Redact;
    SameCharacters();
    var tail := value + rest;
    BareStops(value, rest);
    assert BeginsIn(tail, BLANKS) ==> BeginsIn(tail, ENDS);
    ValuePass(before, name, lead, sign, gap, tail, key, ['*', '*', '*'], |value|);
    assert tail[|value|..] == rest;
  }

  /** A quoted value goes up to the same quote. */
  lemma {:induction false} QuotedValueIsMasked(before: Text, name: Text, lead: Text, sign: char, gap: Text, quote: char, value: Text, rest: Text, key: Text)
    requires SmallLetters(key) && |name| == |key|
    requires FirstAt(before + name + lead + [sign] + gap + ([quote] + value + [quote] + rest), key, |before|)
    requires AllBlank(lead) && sign in ['=', ':'] && AllBlank(gap) && quote in ['"', '\''] && Without(value, quote)
    ensures Redact(before + name + lead + [sign] + gap + ([quote] + value + [quote] + rest), key) ==
            before + name + lead + [sign] + seq(|gap|, _ => ' ') + [quote, '*', '*', '*', quote] + Redact(rest, key)
  {
    hide FirstAt, AllBlank, Redact;
    SameCharacters();
    var tail := [quote] + value + [quote] + rest;
    assert tail[1..] == value + ([quote] + rest);
    RunStops(value, [quote] + rest, quote);
    assert [quote] + MASK + [quote] == [quote, '*', '*', '*', quote];
    ValuePass(before, name, lead, sign, gap, tail, key, [quote, '*', '*', '*', quote], |value| + 2);
    assert tail[|value| + 2..] == rest;
  }

  /** Without a closing quote it goes up to the end of the text. */
  lemma {:induction false} OpenValueIsMasked(before: Text, name: Text, lead: Text, sign: char, gap: Text, quote: char, value: Text, key: Text)
    requires SmallLetters(key) && |name| == |key|
    requires FirstAt(before + name + lead + [sign] + gap + ([quote] + value), key, |before|)
    requires AllBlank(lead) && sign in ['=', ':'] && AllBlank(gap) && quote in ['"', '\''] && Without(value, quote)
    ensures Redact(before + name + lead + [sign] + gap + ([quote] + value), key) ==
            before + name + lead + [sign] + seq(|gap|, _ => ' ') + [quote, '*', '*', '*']
  {
    hide FirstAt, AllBlank;
    SameCharacters();
    var tail := [quote] + value;
    assert tail[1..] == value + [];
    RunStops(value, [], quote);
    assert [quote] + MASK == [quote, '*', '*', '*'];
    hide Redact;
    ValuePass(before, name, lead, sign, gap, tail, key, [quote, '*', '*', '*'], |value| + 1);
    NothingToMask([], key);
    assert tail[|value| + 1..] == [];
    var out := before + name + lead + [sign] + seq(|gap|, _ => ' ') + [quote, '*', '*', '*'];
    assert out + [] == out;
  }

  /** A key that nothing is assigned to is passed over. */
  lemma {:induction false} UnassignedIsKept(before: Text, name: Text, lead: Text, rest: Text, key: Text)
    requires SmallLetters(key) && |name| == |key| && FirstAt(before + name + (lead + rest), key, |before|)
    requires AllBlank(lead) && !BeginsIn(rest, BLANKS) && (rest != [] ==> rest[0] !in ['=', ':'])
    ensures Redact(before + name + (lead + rest), key) == before + name + Redact(lead + rest, key)
  {
    hide FirstAt, Redact;
    SameCharacters();
    BlanksStop(lead, rest);
    var tail := lead + rest;
    assert rest != [] ==> tail[|lead|] == rest[0];
    PassAt(before + name, key, tail, |before|, [], 0);
    assert tail[0..] == tail && before + name + [] == before + name;
  }

  // ---------- what is logged ----------

  /** `mask` is what becomes of the value before `rest`. */
  predicate Becomes(value: Text, rest: Text, mask: Text) {
    || (mask == ['*', '*', '*'] && Bare(value) && value != [] && !BeginsQuoted(value) && (rest == [] || BeginsIn(rest, ENDS)))
    || (exists q | q in ['"', '\''] :: mask == [q, '*', '*', '*', q] && |value| >= 2 && value[0] == value[|value| - 1] == q
                                      && Without(value[1..|value| - 1], q))
  }

  lemma {:induction false} MaskBecomesItself(value: Text, rest: Text, mask: Text)
    requires Becomes(value, rest, mask)
    ensures Becomes(mask, rest, mask)
  {
    if mask != ['*', '*', '*'] {
      var q :| q in ['"', '\''] && mask == [q, '*', '*', '*', q];
      assert mask[1..4] == ['*', '*', '*'];
    }
  }

  lemma {:induction false} ValueIsMasked(before: Text, name: Text, lead: Text, sign: char, gap: Text, value: Text, rest: Text, mask: Text, key: Text)
    requires SmallLetters(key) && |name| == |key| && FirstAt(before + name + lead + [sign] + gap + (value + rest), key, |before|)
    requires AllBlank(lead) && sign in ['=', ':'] && AllBlank(gap) && Becomes(value, rest, mask)
    ensures Redact(before + name + lead + [sign] + gap + (value + rest), key) ==
            before + name + lead + [sign] + seq(|gap|, _ => ' ') + mask + Redact(rest, key)
  {
    hide FirstAt, AllBlank, Redact;
    if mask == ['*', '*', '*'] {
      BareValueIsMasked(before, name, lead, sign, gap, value, rest, key);
    } else {
      var q :| q in ['"', '\''] && mask == [q, '*', '*', '*', q] && |value| >= 2 && value[0] == value[|value| - 1] == q
               && Without(value[1..|value| - 1], q);
      assert value == [q] + value[1..|value| - 1] + [q];
      QuotedValueIsMasked(before, name, lead, sign, gap, q, value[1..|value| - 1], rest, key);
    }
  }

  lemma {:induction false} ReadsInHead(head: Text, tail: Text, other: Text, key: Text, p: nat)
    requires p + |key| <= |head|
    ensures ReadsAt(head + tail, key, p) <==> ReadsAt(head + other, key, p)
  {
    assert forall i | 0 <= i < |head| :: (head + tail)[i] == head[i] && (head + other)[i] == head[i];
  }

  lemma {:induction false} ReadsInRest(text: Text, rest: Text, key: Text, p: nat)
    ensures ReadsAt(rest, key, p) <==> ReadsAt(text + rest, key, |text| + p)
  {
    var joined := text + rest;
    forall j | |text| <= j < |joined| ensures joined[j] == rest[j - |text|] {
    }
  }

  /** No reading of a key meets a middle without characters that keys have. */
  lemma {:induction false} ReadsBesides(head: Text, middle: Text, rest: Text, key: Text, p: nat)
    requires IsKey(key) && SmallLetters(key) && middle != [] && ReadsAt(head + middle + rest, key, p)
    requires forall i | 0 <= i < |middle| :: !IsKeyChar(Lower(middle[i]))
    ensures p + |key| <= |head| || |head| + |middle| <= p
  {
    hide IsKeyChar, IsKey;
    var text := head + middle + rest;
    ReadsIsOccurs(text, key, p);
    if p + |key| > |head| && p < |head| + |middle| {
      var i := if p <= |head| then |head| else p;
      assert text[i] == middle[i - |head|];
      OccursChars(text, key, p, i);
    }
  }

  /** The text in its parts: up to the name, blanks and sign of assignment, value, rest. */
  function Parts(head: Text, lead: nat, sign: char, gap: nat, value: Text, rest: Text): Text {
    head + (seq(lead, _ => ' ') + [sign] + seq(gap, _ => ' ') + value + rest)
  }

  ghost predicate OneSecretIn(head: Text, lead: nat, sign: char, gap: nat, value: Text, rest: Text, keys: seq<Text>) {
    forall i, p: nat | 0 <= i < |keys| :: ReadsAt(Parts(head, lead, sign, gap, value, rest), keys[i], p) ==> p + |keys[i]| == |head|
  }

  predicate NamesOne(head: Text, keys: seq<Text>) {
    exists i | 0 <= i < |keys| :: NamedBy(head, keys[i])
  }

  predicate NamedBy(head: Text, key: Text) {
    |key| <= |head| && ReadsAt(head, key, |head| - |key|)
  }

  lemma {:induction false} NamedReads(head: Text, tail: Text, key: Text)
    ensures NamedBy(head, key) <==> |key| <= |head| && ReadsAt(head + tail, key, |head| - |key|)
  {
    if |key| <= |head| {
      assert head + [] == head;
      ReadsInHead(head, [], tail, key, |head| - |key|);
    }
  }

  predicate GoodKeys(keys: seq<Text>) {
    forall i | 0 <= i < |keys| :: GoodKey(keys[i]) && SmallLetters(keys[i])
  }

  lemma {:induction false} MiddleHasNoKey(lead: nat, sign: char, gap: nat, mask: Text, rest: Text, value: Text)
    requires sign in ['=', ':'] && Becomes(value, rest, mask)
    ensures var middle := seq(lead, _ => ' ') + [sign] + seq(gap, _ => ' ') + mask;
            forall i | 0 <= i < |middle| :: !IsKeyChar(Lower(middle[i]))
  {
    assert forall c | c in mask :: c in ['*', '"', '\''];
    var middle := seq(lead, _ => ' ') + [sign] + seq(gap, _ => ' ') + mask;
    forall i | 0 <= i < |middle| ensures !IsKeyChar(Lower(middle[i])) {
      assert middle[i] in [' ', '=', ':'] || middle[i] in mask;
    }
  }

  /** Masking the value makes no new reading of a key. */
  lemma {:induction false} StillOneSecret(head: Text, lead: nat, sign: char, gap: nat, value: Text, rest: Text, mask: Text, keys: seq<Text>)
    requires sign in ['=', ':'] && Becomes(value, rest, mask) && GoodKeys(keys)
    requires OneSecretIn(head, lead, sign, gap, value, rest, keys)
    ensures OneSecretIn(head, lead, sign, gap, mask, rest, keys)
  {
    hide ReadsAt, Becomes, GoodKey, SmallLetters, IsKeyChar;
    var before, after := Parts(head, lead, sign, gap, value, rest), Parts(head, lead, sign, gap, mask, rest);
    var sep := seq(lead, _ => ' ') + [sign] + seq(gap, _ => ' ');
    var middle := sep + mask;
    MiddleHasNoKey(lead, sign, gap, mask, rest, value);
    assert after == head + middle + rest && before == (head + sep + value) + rest;
    forall i, p: nat | 0 <= i < |keys| && ReadsAt(after, keys[i], p) ensures p + |keys[i]| == |head| {
      var key := keys[i];
      assert IsKey(key) && key != [] by { KeyIsKey(keys, i); }
      ReadsBesides(head, middle, rest, key, p);
      if p + |key| <= |head| {
        ReadsInHead(head, sep + mask + rest, sep + value + rest, key, p);
      } else {
        ReadsInRest(head + middle, rest, key, p - |head + middle|);
        ReadsInRest(head + sep + value, rest, key, p - |head + middle|);
        assert false;
      }
    }
  }

  lemma {:induction false} KeyIsKey(keys: seq<Text>, i: nat)
    requires GoodKeys(keys) && i < |keys|
    ensures keys[i] != [] && IsKey(keys[i]) && SmallLetters(keys[i])
  {
  }

  lemma {:induction false} SplitParts(head: Text, at: nat, lead: nat, sign: char, gap: nat, value: Text, rest: Text)
    requires at <= |head|
    ensures var blanks, spaces := seq(lead, _ => ' '), seq(gap, _ => ' ');
            var text := Parts(head, lead, sign, gap, value, rest);
            && text == head[..at] + head[at..] + blanks + [sign] + spaces + (value + rest)
            && text == head[..at] + head[at..] + blanks + [sign] + spaces + value + rest
            && text == (head + blanks + [sign] + spaces + value) + rest
            && text == head + (blanks + [sign] + spaces + value + rest)
  {
    assert head == head[..at] + head[at..];
  }

  lemma {:induction false} RestHasNoKey(text: Text, rest: Text, key: Text, most: nat)
    requires forall p: nat :: ReadsAt(text + rest, key, p) ==> p + |key| <= most
    requires key != [] && most <= |text|
    ensures Nowhere(rest, key)
  {
    hide ReadsAt;
    forall p: nat | p <= |rest| ensures !ReadsAt(rest, key, p) {
      ReadsInRest(text, rest, key, p);
    }
  }

  /** The pass for one of the keys: if the name ends with it, the value is masked, otherwise nothing changes. */
  lemma {:induction false} OnePass(head: Text, lead: nat, sign: char, gap: nat, value: Text, rest: Text, mask: Text, keys: seq<Text>, k: nat)
    requires sign in ['=', ':'] && Becomes(value, rest, mask) && GoodKeys(keys) && k < |keys|
    requires OneSecretIn(head, lead, sign, gap, value, rest, keys)
    ensures Redact(Parts(head, lead, sign, gap, value, rest), keys[k]) ==
            Parts(head, lead, sign, gap, if NamedBy(head, keys[k]) then mask else value, rest)
  {
    KeyIsKey(keys, k);
    hide ReadsAt, Becomes, GoodKeys, SmallLetters, Redact, IsKey, Parts, NamedBy;
    var key, text := keys[k], Parts(head, lead, sign, gap, value, rest);
    var blanks, spaces := seq(lead, _ => ' '), seq(gap, _ => ' ');
    SplitParts(head, 0, lead, sign, gap, value, rest);
    NamedReads(head, blanks + [sign] + spaces + value + rest, key);
    assert forall p: nat :: ReadsAt(text, key, p) ==> p + |key| == |head|;
    hide OneSecretIn;
    if NamedBy(head, key) {
      var at := |head| - |key|;
      SplitParts(head, at, lead, sign, gap, value, rest);
      SplitParts(head, at, lead, sign, gap, mask, rest);
      assert AllBlank(blanks) && AllBlank(spaces);
      ValueIsMasked(head[..at], head[at..], blanks, sign, spaces, value, rest, mask, key);
      RestHasNoKey(head + blanks + [sign] + spaces + value, rest, key, |head|);
      NothingToMask(rest, key);
    } else {
      NothingToMask(text, key);
    }
  }

  /** After the passes for all keys the value is masked if the name ends with one of them. */
  lemma {:induction false} AllPasses(head: Text, lead: nat, sign: char, gap: nat, value: Text, rest: Text, mask: Text, keys: seq<Text>)
    requires sign in ['=', ':'] && Becomes(value, rest, mask) && GoodKeys(keys)
    requires OneSecretIn(head, lead, sign, gap, value, rest, keys)
    ensures forall i | 0 <= i < |keys| :: keys[i] != []
    ensures RedactAll(Parts(head, lead, sign, gap, value, rest), keys) ==
            Parts(head, lead, sign, gap, if NamesOne(head, keys) then mask else value, rest)
    decreases |keys|
  {
    hide Becomes, GoodKey, SmallLetters, Redact, ReadsAt, Parts, NamedBy;
    forall i | 0 <= i < |keys| ensures keys[i] != [] { KeyIsKey(keys, i); }
    if keys != [] {
      var later := keys[1..];
      assert forall i | 0 <= i < |later| :: later[i] == keys[i + 1];
      var next := if NamedBy(head, keys[0]) then mask else value;
      OnePass(head, lead, sign, gap, value, rest, mask, keys, 0);
      StillOneSecret(head, lead, sign, gap, value, rest, mask, keys);
      MaskBecomesItself(value, rest, mask);
      AllPasses(head, lead, sign, gap, next, rest, mask, later);
      assert NamesOne(head, keys) <==> NamedBy(head, keys[0]) || NamesOne(head, later) by {
        if i :| 0 <= i < |later| && NamedBy(head, later[i]) {
          assert NamedBy(head, keys[i + 1]);
        }
        if i :| 0 <= i < |keys| && NamedBy(head, keys[i]) {
          assert i == 0 || NamedBy(head, later[i - 1]);
        }
      }
    }
  }

  predicate Plain(text: Text) {
    forall i | 0 <= i < |text| :: !(text[i] as int <= 31 || 127 <= text[i] as int <= 159)
  }

  /** A detail with one secret is logged with exactly the secret's value replaced, if it is not too long:
      nothing of the value is left and nothing else is lost. */
  lemma {:induction false} SecretIsLogged(head: Text, lead: nat, sign: char, gap: nat, value: Text, rest: Text, mask: Text)
    requires sign in ['=', ':'] && Becomes(value, rest, mask)
    requires OneSecretIn(head, lead, sign, gap, value, rest, KEYS) && NamesOne(head, KEYS)
    requires Plain(Parts(head, lead, sign, gap, value, rest))
    requires |head| + lead + 1 + gap + |mask| + |rest| <= 2048
    ensures Logged(Parts(head, lead, sign, gap, value, rest)) == Parts(head, lead, sign, gap, mask, rest)
  {
    hide Becomes, RedactAll, OneSecretIn, NamesOne, GoodKeys;
    KeysAreSmall();
    var text := Parts(head, lead, sign, gap, value, rest);
    assert Normalized(text) == text;
    AllPasses(head, lead, sign, gap, value, rest, mask, KEYS);
  }

  /** The names whose values are masked. */
  lemma {:induction false} SecretNames(head: Text)
    ensures NamesOne(head, KEYS) <==> exists name | name in [
              "password", "token", "authorization", "cookie", "set-cookie", "secret", "api_key", "apikey",
              "private_key", "oauth_code", "oauthcode", "ws_token", "session_token", "remoting-auth-token",
              "access_token"] :: NamedBy(head, name)
  {
    hide NamedBy;
  }

  /** The keys are written in small letters. */
  lemma {:induction false} KeysAreSmall()
    ensures GoodKeys(KEYS)
  {
    hide Unbordered;
    KeysAreGood();
    forall i | 0 <= i < |KEYS| ensures SmallLetters(KEYS[i]) {
      KeyIsSmall(KEYS[i]);
    }
  }

  lemma {:induction false} KeyIsSmall(key: Text)
    requires IsKey(key)
    ensures SmallLetters(key)
  {
    forall i | 0 <= i < |key| ensures !('A' <= key[i] <= 'Z') {
      assert IsKeyChar(key[i]);
    }
  }

  /** The text with the characters of codes 0 to 31 and 127 to 159 replaced by blanks. */
  function Unbroken(text: Text): (plain: Text)
    ensures |plain| == |text|
  {
    seq(|text|, i requires 0 <= i < |text| => if text[i] as int <= 31 || 127 <= text[i] as int <= 159 then ' ' else text[i])
  }

  /** A detail without any of the names is logged on one line, up to its 2048th character, and otherwise as it is. */
  lemma {:induction false} HarmlessIsLogged(text: Text)
    requires forall i | 0 <= i < |KEYS| :: Nowhere(Unbroken(text), KEYS[i])
    ensures Logged(text) == if |text| <= 2048 then Unbroken(text) else Unbroken(text)[..2048]
  {
    assert Normalized(text) == Unbroken(text);
    hide Nowhere, Redact, Unbroken, Normalized, GoodKeys, GoodKey, SmallLetters;
    KeysAreSmall();
    NoPass(Unbroken(text), KEYS);
  }

  lemma {:induction false} NoPass(text: Text, keys: seq<Text>)
    requires GoodKeys(keys) && forall i | 0 <= i < |keys| :: Nowhere(text, keys[i])
    ensures forall i | 0 <= i < |keys| :: keys[i] != []
    ensures RedactAll(text, keys) == text
    decreases |keys|
  {
    hide Nowhere, Redact, SmallLetters, GoodKey;
    forall i | 0 <= i < |keys| ensures keys[i] != [] { KeyIsKey(keys, i); }
    if keys != [] {
      KeyIsKey(keys, 0);
      NothingToMask(text, keys[0]);
      var rest := keys[1..];
      assert forall i | 0 <= i < |rest| :: rest[i] == keys[i + 1];
      NoPass(text, rest);
    }
  }
}
