/** What masking guarantees: it is final, and no assignment to a key keeps its value. */
module RedactionProofs {
  import opened Wrappers
  import opened Redaction

  // ---------- what a pass leaves in place ----------

  /** A pass copies the text up to and including the first occurrence, or all of it. */
  lemma {:induction false} PassCopies(text: Text, key: Text)
    requires key != []
    ensures match Find(text, key)
            case None => Redact(text, key) == text
            case Some(start) => text[..start + |key|] <= Redact(text, key)
  {
    hide Assigned;
  }

  /** A character that no key has survives at the front of the text. */
  lemma {:induction false} FrontSurvives(text: Text, key: Text, n: nat)
    requires IsKey(key) && n < |text| && forall i | 0 <= i < n :: !IsKeyChar(Lower(text[i]))
    ensures n < |Redact(text, key)| && Redact(text, key)[..n + 1] == text[..n + 1]
  {
    PassCopies(text, key);
    hide Redact, OccursAt, IsKeyChar;
    if Find(text, key).Some? {
      var start := Find(text, key).value;
      OccursChars(text, key, start, start);
      assert start >= n;
    }
  }

  lemma {:induction false} OccursChars(text: Text, key: Text, p: nat, i: nat)
    requires IsKey(key) && OccursAt(text, key, p) && p <= i < p + |key|
    ensures p + |key| <= |text| && IsKeyChar(Lower(text[i]))
  {
    assert Lower(text[p + (i - p)]) == key[i - p];
  }

  lemma {:induction false} OccursPrefix(text: Text, other: Text, key: Text, p: nat, n: nat)
    requires p + |key| <= n && n <= |text| && n <= |other| && text[..n] == other[..n]
    ensures OccursAt(text, key, p) <==> OccursAt(other, key, p)
  {
    assert forall i | 0 <= i < n :: text[i] == text[..n][i] && other[i] == other[..n][i];
  }

  lemma {:induction false} OccursSuffix(text: Text, key: Text, p: nat, n: nat)
    requires n <= p && n <= |text|
    ensures OccursAt(text, key, p) <==> OccursAt(text[n..], key, p - n)
  {
    forall j | n <= j < |text| ensures text[n..][j - n] == text[j] {
    }
  }

  // ---------- masking is final ----------

  lemma {:induction false} RunStops(run: Text, rest: Text, c: char)
    requires forall i | 0 <= i < |run| :: run[i] != c
    requires rest == [] || rest[0] == c
    ensures RunUntil(run + rest, c) == |run|
  {
    var n, text := RunUntil(run + rest, c), run + rest;
    assert forall i | 0 <= i < |run| :: text[i] == run[i];
    assert rest != [] ==> text[|run|] == c;
  }

  lemma {:induction false} BlanksStop(run: Text, rest: Text)
    requires forall i | 0 <= i < |run| :: IsBlank(run[i])
    requires rest == [] || !IsBlank(rest[0])
    ensures BlankRun(run + rest) == |run|
  {
    var text := run + rest;
    assert forall i | 0 <= i < |run| :: text[i] == run[i];
    assert rest != [] ==> text[|run|] == rest[0];
  }

  lemma {:induction false} BareStops(run: Text, rest: Text)
    requires forall i | 0 <= i < |run| :: !IsStop(run[i])
    requires rest == [] || IsStop(rest[0])
    ensures BareRun(run + rest) == |run|
  {
    var text := run + rest;
    assert forall i | 0 <= i < |run| :: text[i] == run[i];
    assert rest != [] ==> text[|run|] == rest[0];
  }

  /** `z` continues a text as `rest` did: it ends where that ended, and keeps its first character. */
  predicate Continues(z: Text, rest: Text) {
    if rest == [] then z == [] else z != [] && (IsStop(rest[0]) ==> z[0] == rest[0])
  }

  lemma {:induction false} MaskedIsFinal(text: Text, z: Text)
    requires Continues(z, text[Masked(text).1..])
    ensures Masked(Masked(text).0 + z) == (Masked(text).0, |Masked(text).0|)
  {
    var (masked, used) := Masked(text);
    var again := masked + z;
    if text != [] && IsQuote(text[0]) {
      var q := text[0];
      if 1 + RunUntil(text[1..], q) < |text| {
        RunStops(MASK, [q] + z, q);
        assert again[1..] == MASK + ([q] + z);
      } else {
        RunStops(MASK, [], q);
        assert again[1..] == MASK + [];
      }
    } else {
      BareStops(MASK, z);
    }
  }

  /** A text made of blanks, a sign of assignment, blanks and a final value is read as just that. */
  lemma {:induction false} AssignedParts(lead: Text, sign: char, gap: Text, masked: Text, z: Text)
    requires forall i | 0 <= i < |lead| :: IsBlank(lead[i])
    requires IsAssign(sign) && (forall i | 0 <= i < |gap| :: IsBlank(gap[i]))
    requires masked != [] && !IsBlank(masked[0]) && Masked(masked + z) == (masked, |masked|)
    ensures Assigned(lead + [sign] + gap + masked + z) ==
            (lead + [sign] + Blanks(|gap|) + masked, |lead| + 1 + |gap| + |masked|)
  {
    hide Masked, Blanks, BlankRun;
    var text := lead + [sign] + gap + masked + z;
    assert text == lead + ([sign] + gap + masked + z);
    BlanksStop(lead, [sign] + gap + masked + z);
    assert text[|lead| + 1..] == gap + (masked + z);
    BlanksStop(gap, masked + z);
    assert text[|lead| + 1 + |gap|..] == masked + z;
    assert text[..|lead| + 1] == lead + [sign];
  }

  lemma {:induction false} AssignedShape(text: Text) returns (sign: nat, gap: Text, masked: Text)
    requires Assigned(text).0 != []
    ensures sign < |text| && (forall i | 0 <= i < sign :: IsBlank(text[i])) && IsAssign(text[sign])
    ensures forall i | 0 <= i < |gap| :: IsBlank(gap[i])
    ensures gap == Blanks(|gap|) && sign == BlankRun(text) && |gap| == BlankRun(text[sign + 1..]) && sign + 1 + |gap| <= |text|
    ensures masked == Masked(text[sign + 1 + |gap|..]).0
    ensures Assigned(text) == (text[..sign] + [text[sign]] + gap + masked, sign + 1 + |gap| + Masked(text[sign + 1 + |gap|..]).1)
  {
    hide Masked;
    sign := BlankRun(text);
    gap := Blanks(BlankRun(text[sign + 1..]));
    masked := Masked(text[sign + 1 + |gap|..]).0;
    hide BlankRun, Blanks;
    assert text[..sign + 1] == text[..sign] + [text[sign]];
  }

  lemma {:induction false} AssignedIsFinal(text: Text, z: Text)
    requires Assigned(text).0 != [] && Continues(z, text[Assigned(text).1..])
    ensures Assigned(Assigned(text).0 + z) == (Assigned(text).0, |Assigned(text).0|)
  {
    hide Masked, Continues, BlankRun, Blanks, Assigned;
    var sign, gap, masked := AssignedShape(text);
    var v := sign + 1 + |gap|;
    MaskedShape(text[v..]);
    assert text[v..][Masked(text[v..]).1..] == text[v + Masked(text[v..]).1..];
    MaskedIsFinal(text[v..], z);
    AssignedParts(text[..sign], text[sign], gap, masked, z);
  }

  lemma {:induction false} MaskedShape(text: Text)
    ensures var masked := Masked(text).0;
            && masked != [] && !IsBlank(masked[0])
            && forall i | 0 <= i < |masked| :: !IsKeyChar(Lower(masked[i]))
  {
  }

  /** Nothing is written after a key that is not assigned, and after the pass it still is not. */
  lemma {:induction false} UnassignedStays(text: Text, key: Text)
    requires IsKey(key) && Assigned(text).0 == []
    ensures Assigned(Redact(text, key)).0 == []
  {
    hide Masked, Redact;
    MaskedShape(text);
    var n := BlankRun(text);
    if n < |text| {
      assert !IsAssign(text[n]) by { AssignedWrites(text); }
      FrontSurvives(text, key, n);
      var again := Redact(text, key);
      assert again == again[..n] + again[n..] && again[..n] == text[..n] && again[n] == text[n];
      BlanksStop(again[..n], again[n..]);
    } else {
      AllBlankStays(text, key);
    }
  }

  lemma {:induction false} AssignedWrites(text: Text)
    ensures Assigned(text).0 == [] <==> BlankRun(text) == |text| || !IsAssign(text[BlankRun(text)])
  {
  }

  lemma {:induction false} AllBlankStays(text: Text, key: Text)
    requires IsKey(key) && BlankRun(text) == |text|
    ensures Redact(text, key) == text
  {
    if Find(text, key).Some? {
      OccursChars(text, key, Find(text, key).value, Find(text, key).value);
    }
  }

  lemma {:induction false} RestContinues(text: Text, key: Text)
    requires IsKey(key)
    ensures Continues(Redact(text, key), text)
  {
    if text == [] {
      assert Find(text, key).None?;
    } else if IsStop(text[0]) {
      FrontSurvives(text, key, 0);
      assert Redact(text, key)[..1] == text[..1];
    } else {
      PassCopies(text, key);
    }
  }

  /** The pass over a text whose first occurrence, what is written after it, and the rest are known. */
  lemma {:induction false} RedactParts(text: Text, key: Text, written: Text, z: Text)
    requires key != [] && Find(text, key).Some? && Find(text, key).value + |key| <= |text|
    requires text[Find(text, key).value + |key|..] == written + z
    requires Assigned(written + z) == (written, |written|)
    ensures Redact(text, key) == text[..Find(text, key).value + |key|] + written + Redact(z, key)
  {
    hide Assigned, Find, OccursAt;
    var after := Find(text, key).value + |key|;
    assert text[after + |written|..] == text[after..][|written|..] == z;
  }

  lemma {:induction false} WrittenIsFinal(text: Text, key: Text)
    requires IsKey(key)
    ensures var (written, used) := Assigned(text);
            var z := Redact(text[used..], key);
            Assigned(written + z) == (written, |written|)
  {
    hide Redact;
    var (written, used) := Assigned(text);
    var z := Redact(text[used..], key);
    if written == [] {
      UnassignedUses(text);
      assert text[0..] == text;
      UnassignedStays(text, key);
      UnassignedUses(z);
      assert written + z == z;
    } else {
      RestContinues(text[used..], key);
      AssignedIsFinal(text, z);
    }
  }

  /** A second pass for the same key changes nothing. */
  lemma {:induction false} RedactTwice(text: Text, key: Text)
    requires IsKey(key)
    ensures Redact(Redact(text, key), key) == Redact(text, key)
    decreases |text|
  {
    hide Assigned, OccursAt, Redact, Find;
    PassUnfolds(text, key);
    if Find(text, key).Some? {
      var after := Find(text, key).value + |key|;
      var (written, used) := Assigned(text[after..]);
      var z, again := Redact(text[after + used..], key), Redact(text, key);
      assert text[after..][used..] == text[after + used..];
      WrittenIsFinal(text[after..], key);
      RedactTwice(text[after + used..], key);
      PassCopies(text, key);
      FoundAgain(text, again, key);
      assert again[after..] == written + z && again[..after] == text[..after];
      RedactParts(again, key, written, z);
      assert again[..after] + written + z == again[..after] + (written + z);
    }
  }

  lemma {:induction false} PassUnfolds(text: Text, key: Text)
    requires key != []
    ensures match Find(text, key)
            case None => Redact(text, key) == text
            case Some(start) =>
              var after := start + |key|;
              && after <= |text| && OccursAt(text, key, after - |key|)
              && var (written, used) := Assigned(text[after..]);
                 Redact(text, key) == text[..after] + (written + Redact(text[after + used..], key))
  {
    hide Assigned, OccursAt;
    FoundFits(text, key);
    match Find(text, key)
    case None =>
    case Some(start) =>
      var after := start + |key|;
      var (written, used) := Assigned(text[after..]);
      var z := Redact(text[after + used..], key);
      assert Redact(text, key) == text[..after] + written + z;
      hide Redact, Find;
      assert text[..after] + written + z == text[..after] + (written + z);
  }

  lemma {:induction false} FoundFits(text: Text, key: Text)
    ensures Find(text, key).Some? ==> Find(text, key).value + |key| <= |text|
  {
  }

  lemma {:induction false} UnassignedUses(text: Text)
    requires Assigned(text).0 == []
    ensures Assigned(text).1 == 0
  {
    hide Masked;
    MaskedShape(text);
    AssignedWrites(text);
  }

  /** The first occurrence is found again in anything that begins like the text up to its end. */
  lemma {:induction false} FoundAgain(text: Text, again: Text, key: Text)
    requires IsKey(key) && Find(text, key).Some?
    requires text[..Find(text, key).value + |key|] <= again
    ensures Find(again, key) == Find(text, key)
  {
    var start := Find(text, key).value;
    var n := start + |key|;
    OccursPrefix(text, again, key, start, n);
    assert OccursAt(again, key, start);
    var p := Find(again, key).value;
    OccursPrefix(text, again, key, p, n);
  }

  // ---------- no assigned value survives ----------

  /** The text begins with a masked value: bare and ended, or quoted and closed or cut off. */
  predicate MaskHere(text: Text) {
    || (MASK <= text && (|text| == 3 || IsStop(text[3])))
    || (text != [] && IsQuote(text[0]) && MASK <= text[1..] && (|text| == 4 || text[4] == text[0]))
  }

  /** If the text after a key assigns a value, that value is masked. */
  predicate ValueMasked(text: Text) {
    var sign := BlankRun(text);
    sign < |text| && IsAssign(text[sign]) ==> MaskHere(text[sign + 1 + BlankRun(text[sign + 1..])..])
  }

  predicate MaskedAfter(text: Text, n: nat) {
    n <= |text| && ValueMasked(text[n..])
  }

  lemma {:induction false} MaskedInRest(text: Text, n: nat, k: nat)
    requires n <= |text|
    ensures MaskedAfter(text[n..], k) <==> MaskedAfter(text, n + k)
  {
    hide ValueMasked;
    if n + k <= |text| {
      assert text[n..][k..] == text[n + k..];
    }
  }

  lemma {:induction false} MaskedAtJoin(head: Text, tail: Text)
    requires ValueMasked(tail)
    ensures MaskedAfter(head + tail, |head|)
  {
    hide ValueMasked;
    assert (head + tail)[|head|..] == tail;
  }

  /** Every assignment to the key, wherever it occurs and in whatever case, has a masked value. */
  ghost predicate AllMasked(text: Text, key: Text) {
    forall p: nat | OccursAt(text, key, p) :: MaskedAfter(text, p + |key|)
  }

  /** No end of the key is also a beginning of it. */
  predicate Unbordered(key: Text) {
    forall d | 0 < d < |key| :: key[d..] != key[..|key| - d]
  }

  lemma {:induction false} FixedMaskIsMask(text: Text)
    requires Masked(text).0 <= text && Masked(text).1 == |Masked(text).0|
    ensures MaskHere(text)
  {
    var (masked, used) := Masked(text);
    if text != [] && IsQuote(text[0]) {
      assert masked[1..4] == MASK && text[1..][..3] == masked[1..4];
      assert masked[1] == '*' && masked[2] == '*' && masked[3] == '*';
    } else {
      assert masked == MASK && used == BareRun(text) == 3;
    }
  }

  lemma {:induction false} FixedIsMasked(text: Text)
    requires Assigned(text).0 <= text && Assigned(text).1 == |Assigned(text).0|
    ensures ValueMasked(text)
  {
    hide Masked, MaskHere, Blanks, Assigned;
    AssignedWrites(text);
    if Assigned(text).0 != [] {
      var sign, gap, masked := AssignedShape(text);
      var v := sign + 1 + |gap|;
      var written := Assigned(text).0;
      assert written[v..] == masked && text[..|written|] == written;
      assert text[v..][..|masked|] == written[v..];
      FixedMaskIsMask(text[v..]);
    }
  }

  lemma {:induction false} OverlapIsBorder(text: Text, key: Text, s: nat, p: nat)
    requires OccursAt(text, key, s) && OccursAt(text, key, p) && s < p < s + |key|
    ensures !Unbordered(key)
  {
    var d := p - s;
    forall i | 0 <= i < |key| - d ensures key[d..][i] == key[..|key| - d][i] {
      assert Lower(text[p + i]) == key[i];
      assert Lower(text[s + (d + i)]) == key[d + i];
    }
    assert key[d..] == key[..|key| - d];
  }

  lemma {:induction false} WrittenHasNoKey(text: Text)
    ensures forall i | 0 <= i < |Assigned(text).0| :: !IsKeyChar(Lower(Assigned(text).0[i]))
  {
    hide Masked;
    var sign := BlankRun(text);
    if sign < |text| && IsAssign(text[sign]) {
      MaskedShape(text[sign + 1 + BlankRun(text[sign + 1..])..]);
    }
  }

  /** The result of a pass that finds something: the text up to the first occurrence, found there again,
      what is written after it, and from n on the result for the rest. */
  lemma {:induction false} PassParts(text: Text, key: Text) returns (head: Text, written: Text, rest: Text, n: nat)
    requires IsKey(key) && Find(text, key).Some?
    ensures |head| == Find(text, key).value + |key| && |rest| < |text|
    ensures Redact(text, key) == head + (written + Redact(rest, key))
    ensures Find(Redact(text, key), key) == Find(text, key)
    ensures Assigned(written + Redact(rest, key)) == (written, |written|)
    ensures forall i | 0 <= i < |written| :: !IsKeyChar(Lower(written[i]))
    ensures n == |head| + |written| && n <= |Redact(text, key)| && Redact(text, key)[n..] == Redact(rest, key)
  {
    hide Assigned, OccursAt, Redact, Find;
    PassUnfolds(text, key);
    var after := Find(text, key).value + |key|;
    WrittenIsFinal(text[after..], key);
    WrittenHasNoKey(text[after..]);
    var used := Assigned(text[after..]).1;
    assert text[after..][used..] == text[after + used..];
    head, written, rest := text[..after], Assigned(text[after..]).0, text[after + used..];
    n := |head| + |written|;
    PassCopies(text, key);
    FoundAgain(text, Redact(text, key), key);
    DropHead(head, written, Redact(rest, key));
  }

  lemma {:induction false} FoundIsFirst(text: Text, key: Text, p: nat)
    requires OccursAt(text, key, p)
    ensures Find(text, key).Some? && Find(text, key).value <= p && OccursAt(text, key, Find(text, key).value)
    ensures Find(text, key).value + |key| <= |text| && p + |key| <= |text|
  {
  }

  lemma {:induction false} PieceMasked(again: Text, head: Text, written: Text, z: Text, key: Text, start: nat, p: nat)
    requires IsKey(key) && Unbordered(key) && again == head + (written + z) && |head| == start + |key|
    requires Assigned(written + z) == (written, |written|)
    requires forall i | 0 <= i < |written| :: !IsKeyChar(Lower(written[i]))
    requires OccursAt(again, key, start) && OccursAt(again, key, p) && start <= p < |head| + |written|
    ensures MaskedAfter(again, p + |key|)
  {
    hide ValueMasked, Assigned, Unbordered;
    if p == start {
      FixedIsMasked(written + z);
      MaskedAtJoin(head, written + z);
    } else if p < |head| {
      OverlapIsBorder(again, key, start, p);
    } else {
      assert again[p] == written[p - |head|];
      OccursChars(again, key, p, p);
    }
  }

  lemma {:induction false} FirstBefore(text: Text, key: Text, p: nat)
    requires IsKey(key) && OccursAt(Redact(text, key), key, p)
    ensures Find(text, key).Some? && Find(text, key).value <= p && Find(text, key).value + |key| <= |text|
    ensures OccursAt(Redact(text, key), key, Find(text, key).value) && p + |key| <= |Redact(text, key)|
  {
    FoundIsFirst(Redact(text, key), key, p);
    PassCopies(text, key);
    FoundFits(text, key);
    if Find(text, key).Some? {
      FoundAgain(text, Redact(text, key), key);
    }
  }

  /** After the pass every assignment to the key is masked, unless the key overlaps itself. */
  lemma {:induction false} PassMasks(text: Text, key: Text, p: nat)
    requires IsKey(key) && Unbordered(key) && OccursAt(Redact(text, key), key, p)
    ensures MaskedAfter(Redact(text, key), p + |key|)
    decreases |text|, 1
  {
    assert key != [];
    hide Assigned, MaskedAfter, Unbordered, Redact, OccursAt, IsKey, Find;
    FirstBefore(text, key, p);
    var head, written, rest, n := PassParts(text, key);
    if p < n {
      PieceMasked(Redact(text, key), head, written, Redact(rest, key), key, Find(text, key).value, p);
    } else {
      PassRestMasked(Redact(text, key), n, rest, key, p);
    }
  }

  lemma {:induction false} PassRestMasked(again: Text, n: nat, rest: Text, key: Text, p: nat)
    requires IsKey(key) && Unbordered(key) && OccursAt(again, key, p) && n <= p && n <= |again|
    requires again[n..] == Redact(rest, key)
    ensures MaskedAfter(again, p + |key|)
    decreases |rest|, 2
  {
    hide MaskedAfter, Unbordered, Redact, OccursAt, IsKey;
    OccursSuffix(again, key, p, n);
    PassMasks(rest, key, p - n);
    MaskedFromRest(again, n, key, p);
  }

  lemma {:induction false} MaskedFromRest(again: Text, n: nat, key: Text, p: nat)
    requires n <= p && n <= |again| && MaskedAfter(again[n..], p - n + |key|)
    ensures MaskedAfter(again, p + |key|)
  {
    hide MaskedAfter;
    MaskedInRest(again, n, p - n + |key|);
  }

  lemma {:induction false} DropHead(head: Text, written: Text, z: Text)
    ensures (head + (written + z))[|head| + |written|..] == z
  {
    assert head + (written + z) == (head + written) + z;
  }

  // ---------- keys that overlap themselves ----------

  /** For a key with a border d, two overlapping occurrences hide the second one's assignment from the pass. */
  function Overlapping(key: Text, d: nat): Text
    requires d <= |key|
  {
    key[..d] + key + ['=', 'x']
  }

  lemma {:induction false} OverlapOccurs(key: Text, d: nat)
    requires IsKey(key) && 0 < d < |key| && key[d..] == key[..|key| - d]
    ensures var text, m := Overlapping(key, d), |key|;
            && text[..m] == key && text[d..d + m] == key && text[d + m..] == ['=', 'x']
            && text[m..] == key[m - d..] + ['=', 'x']
            && OccursAt(text, key, 0) && OccursAt(text, key, d)
  {
    var text, m := Overlapping(key, d), |key|;
    assert text[..m] == key[..d] + key[..m - d] == key[..d] + key[d..];
    assert text[d..d + m] == key;
    forall i | 0 <= i < m ensures Lower(text[i]) == key[i] && Lower(text[d + i]) == key[i] {
      assert text[i] == text[..m][i] && text[d + i] == text[d..d + m][i];
    }
  }

  lemma {:induction false} NoKeyInTail(key: Text, d: nat)
    requires IsKey(key) && 0 < d < |key|
    ensures var rest := key[|key| - d..] + ['=', 'x'];
            Find(rest, key).None? && Redact(rest, key) == rest && Assigned(rest) == ([], 0)
  {
    var rest := key[|key| - d..] + ['=', 'x'];
    assert rest[d] == '=' && rest[0] == key[|key| - d];
    if Find(rest, key).Some? {
      var p := Find(rest, key).value;
      OccursChars(rest, key, p, d);
    }
    assert IsKeyChar(rest[0]) && BlankRun(rest) == 0;
  }

  /** A pass that writes nothing after a key at the front and changes nothing later changes nothing. */
  lemma {:induction false} PassesOver(text: Text, key: Text)
    requires IsKey(key) && |key| <= |text| && Find(text, key) == Some(0)
    requires Assigned(text[|key|..]) == ([], 0) && Redact(text[|key|..], key) == text[|key|..]
    ensures Redact(text, key) == text
  {
    hide Find, Assigned;
    assert text[|key|..][0..] == text[|key|..];
    assert text[..|key|] + [] + text[|key|..] == text;
  }

  lemma {:induction false} LeakIsUnmasked(text: Text, key: Text, p: nat)
    requires OccursAt(text, key, p) && p + |key| <= |text| && !ValueMasked(text[p + |key|..])
    ensures !AllMasked(text, key)
  {
    hide OccursAt, ValueMasked;
    assert !MaskedAfter(text, p + |key|);
  }

  lemma {:induction false} BorderLeaks(key: Text, d: nat)
    requires IsKey(key) && 0 < d < |key| && key[d..] == key[..|key| - d]
    ensures Redact(Overlapping(key, d), key) == Overlapping(key, d)
    ensures !AllMasked(Overlapping(key, d), key)
  {
    hide OccursAt, Assigned, ValueMasked, Overlapping, Redact, IsKey;
    var text := Overlapping(key, d);
    OverlapOccurs(key, d);
    NoKeyInTail(key, d);
    PassesOver(text, key);
    AssignedLetter();
    LeakIsUnmasked(text, key, d);
  }

  lemma {:induction false} AssignedLetter()
    ensures !ValueMasked(['=', 'x'])
  {
    var text: Text := ['=', 'x'];
    assert text[1..] == ['x'] && BlankRun(text[1..]) == 0;
  }

  /** The pass masks every assignment to the key, in every text, exactly when the key does not overlap itself. */
  lemma {:induction false} MaskedIffUnbordered(key: Text)
    requires IsKey(key)
    ensures (forall text :: AllMasked(Redact(text, key), key)) <==> Unbordered(key)
  {
    hide Redact, ValueMasked;
    if Unbordered(key) {
      forall text ensures AllMasked(Redact(text, key), key) {
        forall p: nat | OccursAt(Redact(text, key), key, p) ensures MaskedAfter(Redact(text, key), p + |key|) {
          PassMasks(text, key, p);
        }
      }
    } else {
      var d :| 0 < d < |key| && key[d..] == key[..|key| - d];
      BorderLeaks(key, d);
      assert !AllMasked(Redact(Overlapping(key, d), key), key);
    }
  }

  // ---------- one key after the other ----------

  /** The pass first writes after the occurrence that ends at e. */
  ghost predicate WritesAt(text: Text, key: Text, e: nat)
    requires key != []
  {
    && |key| <= e <= |text| && OccursAt(text, key, e - |key|)
    && var (written, used) := Assigned(text[e..]);
       written != [] && Redact(text, key) == text[..e] + (written + Redact(text[e + used..], key))
  }

  lemma {:induction false} WritesLater(text: Text, key: Text, after: nat, f: nat)
    requires key != [] && after <= |text| && WritesAt(text[after..], key, f)
    requires Redact(text, key) == text[..after] + Redact(text[after..], key)
    ensures WritesAt(text, key, after + f)
  {
    hide OccursAt, Assigned, Redact;
    var rest, e := text[after..], after + f;
    var (written, used) := Assigned(rest[f..]);
    OccursSuffix(text, key, e - |key|, after);
    assert rest[f..] == text[e..] && rest[f + used..] == text[e + used..];
    assert text[..after] + rest[..f] == text[..e];
    var z := Redact(text[e + used..], key);
    assert text[..after] + (rest[..f] + (written + z)) == text[..e] + (written + z);
  }

  /** Where the first assigned occurrence that a pass finds ends, if it finds one. */
  lemma {:induction false} FirstAssigned(text: Text, key: Text) returns (e: Option<nat>)
    requires IsKey(key)
    ensures e.None? ==> Redact(text, key) == text
    ensures e.Some? ==> WritesAt(text, key, e.value)
    decreases |text|
  {
    hide OccursAt, Assigned, Redact, Find;
    PassUnfolds(text, key);
    if Find(text, key).None? {
      return None;
    }
    var after := Find(text, key).value + |key|;
    var (written, used) := Assigned(text[after..]);
    if written != [] {
      return Some(after);
    }
    UnassignedUses(text[after..]);
    var rest := text[after..];
    var f := FirstAssigned(rest, key);
    assert text[..after] + rest == text;
    if f.None? {
      return None;
    }
    WritesLater(text, key, after, f.value);
    e := Some(after + f.value);
  }

  lemma {:induction false} SameBlankRun(u: Text, v: Text, s: nat)
    requires s < |u| && s < |v| && (forall i | 0 <= i <= s :: u[i] == v[i]) && !IsBlank(u[s])
    ensures BlankRun(u) == BlankRun(v) <= s
  {
    var n := BlankRun(u);
    assert v == v[..n] + v[n..];
    BlanksStop(v[..n], v[n..]);
  }

  /** Whether a value is masked is settled before the next key character. */
  lemma {:induction false} SettledBefore(u: Text, v: Text, s: nat)
    requires s < |u| && s < |v| && (forall i | 0 <= i <= s :: u[i] == v[i]) && IsKeyChar(Lower(u[s]))
    requires ValueMasked(u)
    ensures ValueMasked(v)
  {
    hide BlankRun, MaskHere;
    SameBlankRun(u, v, s);
    var sign := BlankRun(u);
    if IsAssign(u[sign]) {
      var n := sign + 1;
      SameTails(u, v, s, n);
      SameBlankRun(u[n..], v[n..], s - n);
      var at := n + BlankRun(u[n..]);
      SameTails(u, v, s, at);
      MaskBefore(u[at..], v[at..], s - at);
    }
  }

  lemma {:induction false} SameTails(u: Text, v: Text, s: nat, n: nat)
    requires n <= s < |u| && s < |v| && (forall i | 0 <= i <= s :: u[i] == v[i])
    ensures (forall i | 0 <= i <= s - n :: u[n..][i] == v[n..][i]) && u[n..][s - n] == u[s]
  {
  }

  lemma {:induction false} MaskBefore(u: Text, v: Text, s: nat)
    requires s < |u| && s < |v| && (forall i | 0 <= i <= s :: u[i] == v[i]) && IsKeyChar(Lower(u[s]))
    requires MaskHere(u)
    ensures MaskHere(v)
  {
    if MASK <= u {
      assert u[0] == MASK[0] && u[1] == MASK[1] && u[2] == MASK[2];
      assert s > 3;
      assert v[..3] == MASK;
    } else {
      assert u[1..][..3] == MASK;
      assert u[1] == MASK[0] && u[2] == MASK[1] && u[3] == MASK[2];
      assert s > 4;
      assert v[1..][..3] == MASK;
    }
  }

  lemma {:induction false} SuffixAllMasked(text: Text, key: Text, n: nat)
    requires AllMasked(text, key) && n <= |text|
    ensures AllMasked(text[n..], key)
  {
    hide MaskedAfter;
    forall p: nat | OccursAt(text[n..], key, p) ensures MaskedAfter(text[n..], p + |key|) {
      OccursSuffix(text, key, p + n, n);
      MaskedInRest(text, n, p + |key|);
    }
  }

  /** Occurrences before the end of the next masked assignment stay masked. */
  lemma {:induction false} HeadStaysMasked(text: Text, again: Text, key: Text, other: Text, e: nat, tail: Text, p: nat)
    requires IsKey(key) && IsKey(other) && AllMasked(text, key)
    requires |other| <= e <= |text| && OccursAt(text, other, e - |other|) && again == text[..e] + tail
    requires ValueMasked(tail) && OccursAt(again, key, p) && p + |key| <= e
    ensures MaskedAfter(again, p + |key|)
  {
    hide ValueMasked;
    var n := p + |key|;
    OccursPrefix(text, again, key, p, e);
    if n == e {
      assert again[e..] == tail;
    } else {
      OccursChars(text, other, e - |other|, e - 1);
      forall i | 0 <= i <= e - 1 - n ensures text[n..][i] == again[n..][i] {
        assert again[n + i] == text[..e][n + i];
      }
      SettledBefore(text[n..], again[n..], e - 1 - n);
    }
  }

  lemma {:induction false} WrittenHasNone(again: Text, head: Text, written: Text, z: Text, key: Text, p: nat)
    requires IsKey(key) && OccursAt(again, key, p) && again == head + (written + z) && written != []
    requires forall i | 0 <= i < |written| :: !IsKeyChar(Lower(written[i]))
    ensures p + |key| <= |head| || p >= |head| + |written|
  {
    if p + |key| > |head| && p < |head| + |written| {
      var i := if p < |head| then |head| else p;
      assert again[i] == written[i - |head|];
      OccursChars(again, key, p, i);
    }
  }

  lemma {:induction false} MaskedAt(text: Text, key: Text, p: nat)
    requires AllMasked(text, key) && OccursAt(text, key, p)
    ensures MaskedAfter(text, p + |key|)
  {
  }

  lemma {:induction false} WritesParts(text: Text, key: Text, e: nat) returns (written: Text, rest: Text, n: nat)
    requires IsKey(key) && WritesAt(text, key, e)
    ensures |key| <= e <= |text| && OccursAt(text, key, e - |key|) && written != []
    ensures Redact(text, key) == text[..e] + (written + Redact(rest, key))
    ensures Assigned(written + Redact(rest, key)) == (written, |written|)
    ensures forall i | 0 <= i < |written| :: !IsKeyChar(Lower(written[i]))
    ensures e < n <= |Redact(text, key)| && n == e + |written| && Redact(text, key)[n..] == Redact(rest, key)
    ensures |rest| < |text| && forall other :: AllMasked(text, other) ==> AllMasked(rest, other)
  {
    hide Redact, Assigned, OccursAt, AllMasked;
    var used := Assigned(text[e..]).1;
    written, rest := Assigned(text[e..]).0, text[e + used..];
    n := e + |written|;
    assert text[e..][used..] == rest;
    WrittenIsFinal(text[e..], key);
    WrittenHasNoKey(text[e..]);
    DropHead(text[..e], written, Redact(rest, key));
    forall other | AllMasked(text, other) ensures AllMasked(rest, other) {
      SuffixAllMasked(text, other, e + used);
    }
  }

  /** A pass for one key leaves the assignments to another masked. */
  lemma {:induction false} PassKeepsMasked(text: Text, key: Text, other: Text, p: nat)
    requires IsKey(key) && IsKey(other) && AllMasked(text, key)
    requires OccursAt(Redact(text, other), key, p)
    ensures MaskedAfter(Redact(text, other), p + |key|)
    decreases |text|, 1
  {
    assert other != [];
    hide Redact, MaskedAfter, Assigned, OccursAt, IsKey, AllMasked, WritesAt;
    var again := Redact(text, other);
    var found := FirstAssigned(text, other);
    if found.None? {
      MaskedAt(text, key, p);
    } else {
      var e := found.value;
      var written, rest, n := WritesParts(text, other, e);
      if p >= n {
        KeepsRestMasked(again, n, rest, key, other, p);
      } else {
        WrittenHasNone(again, text[..e], written, Redact(rest, other), key, p);
        FixedIsMasked(written + Redact(rest, other));
        HeadStaysMasked(text, again, key, other, e, written + Redact(rest, other), p);
      }
    }
  }

  lemma {:induction false} KeepsRestMasked(again: Text, n: nat, rest: Text, key: Text, other: Text, p: nat)
    requires IsKey(key) && IsKey(other) && AllMasked(rest, key) && OccursAt(again, key, p) && n <= p && n <= |again|
    requires again[n..] == Redact(rest, other)
    ensures MaskedAfter(again, p + |key|)
    decreases |rest|, 2
  {
    hide Redact, MaskedAfter, AllMasked, IsKey, OccursAt;
    OccursSuffix(again, key, p, n);
    PassKeepsMasked(rest, key, other, p - n);
    MaskedFromRest(again, n, key, p);
  }

  /** After the passes for all keys, every assignment to every key is masked. */
  lemma {:induction false} AllPassesMask(text: Text, keys: seq<Text>, done: seq<Text>)
    requires forall i | 0 <= i < |keys| :: keys[i] != [] && IsKey(keys[i]) && Unbordered(keys[i])
    requires forall i | 0 <= i < |done| :: IsKey(done[i]) && AllMasked(text, done[i])
    ensures forall i | 0 <= i < |done| :: AllMasked(RedactAll(text, keys), done[i])
    ensures forall i | 0 <= i < |keys| :: AllMasked(RedactAll(text, keys), keys[i])
    decreases |keys|
  {
    hide AllMasked, Redact, IsKey, Unbordered;
    if keys != [] {
      var next, more := Redact(text, keys[0]), done + [keys[0]];
      forall i | 0 <= i < |more| ensures IsKey(more[i]) && AllMasked(next, more[i]) {
        if i < |done| {
          PassKeepsAllMasked(text, done[i], keys[0]);
        } else {
          PassMasksAll(text, keys[0]);
        }
      }
      AllPassesMask(next, keys[1..], more);
      forall i | 0 <= i < |done| ensures AllMasked(RedactAll(text, keys), done[i]) {
        assert more[i] == done[i];
      }
      forall i | 0 <= i < |keys| ensures AllMasked(RedactAll(text, keys), keys[i]) {
        if i == 0 {
          assert more[|done|] == keys[0];
        } else {
          assert keys[i] == keys[1..][i - 1];
        }
      }
    }
  }

  lemma {:induction false} PassKeepsAllMasked(text: Text, key: Text, other: Text)
    requires IsKey(key) && IsKey(other) && AllMasked(text, key)
    ensures AllMasked(Redact(text, other), key)
  {
    hide Redact, ValueMasked;
    forall p: nat | OccursAt(Redact(text, other), key, p) ensures MaskedAfter(Redact(text, other), p + |key|) {
      PassKeepsMasked(text, key, other, p);
    }
  }

  lemma {:induction false} PassMasksAll(text: Text, key: Text)
    requires IsKey(key) && Unbordered(key)
    ensures AllMasked(Redact(text, key), key)
  {
    hide Redact, ValueMasked, Unbordered;
    forall p: nat | OccursAt(Redact(text, key), key, p) ensures MaskedAfter(Redact(text, key), p + |key|) {
      PassMasks(text, key, p);
    }
  }

  // ---------- keys that do not ----------

  predicate GoodKey(key: Text) { key != [] && IsKey(key) && Unbordered(key) }

  /** The first two characters of the key do not come back together later, and it does not end in the first. */
  predicate NoRestart(key: Text) {
    && |key| >= 2 && key[|key| - 1] != key[0]
    && forall d | 0 < d < |key| - 1 :: key[d] != key[0] || key[d + 1] != key[1]
  }

  lemma {:induction false} NoRestartIsGood(key: Text)
    requires IsKey(key) && NoRestart(key)
    ensures GoodKey(key)
  {
    forall d | 0 < d < |key| ensures key[d..] != key[..|key| - d] {
      if key[d] == key[0] {
        assert key[d..][1] == key[d + 1] && key[..|key| - d][1] == key[1];
      } else {
        assert key[d..][0] == key[d] && key[..|key| - d][0] == key[0];
      }
    }
  }

  // ---------- cutting to length ----------

  /** Where the text is cut, the mask may be cut with it. */
  predicate MaskOrCut(text: Text) {
    MaskHere(text) || text <= MASK || (text != [] && IsQuote(text[0]) && text[1..] <= MASK)
  }

  predicate ValueMaskedOrCut(text: Text) {
    var sign := BlankRun(text);
    sign < |text| && IsAssign(text[sign]) ==> MaskOrCut(text[sign + 1 + BlankRun(text[sign + 1..])..])
  }

  lemma {:induction false} CutMask(text: Text, n: nat)
    requires MaskHere(text) && n <= |text|
    ensures MaskOrCut(text[..n])
  {
    var cut := text[..n];
    if MASK <= text {
      if n <= 3 {
        assert cut == MASK[..n];
      } else {
        assert cut[..3] == text[..3] == MASK;
      }
    } else if n > 0 {
      assert cut[1..] == text[1..][..n - 1];
      if n <= 4 {
        assert cut[1..] == MASK[..n - 1];
      } else {
        assert cut[1..][..3] == text[1..][..3] == MASK;
      }
    }
  }

  lemma {:induction false} CutRun(text: Text, n: nat)
    requires n <= |text|
    ensures BlankRun(text[..n]) == if BlankRun(text) < n then BlankRun(text) else n
  {
    var b, cut := BlankRun(text), text[..n];
    if b < n {
      assert cut == text[..b] + text[b..n];
      BlanksStop(text[..b], text[b..n]);
    } else {
      assert cut == cut + [];
      BlanksStop(cut, []);
    }
  }

  lemma {:induction false} CutValue(text: Text, n: nat)
    requires ValueMasked(text) && n <= |text|
    ensures ValueMaskedOrCut(text[..n])
  {
    hide MaskHere, BlankRun;
    CutRun(text, n);
    var sign, cut := BlankRun(text), text[..n];
    if sign < n && IsAssign(text[sign]) {
      assert cut[sign + 1..] == text[sign + 1..][..n - sign - 1];
      CutRun(text[sign + 1..], n - sign - 1);
      var v := sign + 1 + BlankRun(text[sign + 1..]);
      if v < n {
        CutMask(text[v..], n - v);
        assert cut[v..] == text[v..][..n - v];
      } else {
        assert cut[n..] == [];
      }
    }
  }

  /** Cutting the masked text to length exposes nothing: values are masked, or end inside the mask. */
  lemma {:induction false} CutTextIsMasked(text: Text, key: Text, n: nat, p: nat)
    requires AllMasked(text, key) && OccursAt(Take(text, n), key, p)
    ensures p + |key| <= |Take(text, n)| && ValueMaskedOrCut(Take(text, n)[p + |key|..])
  {
    var cut, m := Take(text, n), |Take(text, n)|;
    assert cut == text[..m];
    OccursPrefix(text, cut, key, p, m);
    var after := p + |key|;
    hide ValueMasked, ValueMaskedOrCut;
    CutValue(text[after..], m - after);
    assert text[after..][..m - after] == cut[after..];
  }

  /** Every assignment to the key has a masked value, or one that ends inside its mask. */
  ghost predicate AllMaskedOrCut(text: Text, key: Text) {
    forall p: nat | OccursAt(text, key, p) :: p + |key| <= |text| && ValueMaskedOrCut(text[p + |key|..])
  }

  lemma {:induction false} CutAllMasked(text: Text, key: Text, n: nat)
    requires AllMasked(text, key)
    ensures AllMaskedOrCut(Take(text, n), key)
  {
    hide AllMasked, OccursAt, Take, ValueMaskedOrCut;
    forall p: nat | OccursAt(Take(text, n), key, p)
      ensures p + |key| <= |Take(text, n)| && ValueMaskedOrCut(Take(text, n)[p + |key|..])
    {
      CutTextIsMasked(text, key, n, p);
    }
  }
}
