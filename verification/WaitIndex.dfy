/** The wait-index member codec (`src/liveness/wait_index.ts`).

    A member spells four caller-controlled strings, separated by `|`, in which `\` and `|`
    are escaped. The codec is pure except for the scanner, which the source writes as a loop. */
module WaitIndex {
  const SEPARATOR: char := '|'
  const ESCAPE: char := '\\'

  datatype Member = Member(sessionId: string, parentMessageId: string, childMessageId: string, taskGroupId: string)

  datatype Decoded = Decoded(member: Member) | DanglingEscape | WrongFieldCount(count: nat)

  /** `value.split(sep)` for a one-character separator. */
  function Split(value: string, sep: char): (parts: seq<string>)
    ensures |parts| >= 1
  {
    if value == "" then [""]
    else
      var rest := Split(value[1..], sep);
      if value[0] == sep then [""] + rest else [[value[0]] + rest[0]] + rest[1..]
  }

  /** `parts.join(glue)`. */
  function Join(parts: seq<string>, glue: string): string {
    if |parts| == 0 then ""
    else if |parts| == 1 then parts[0]
    else parts[0] + glue + Join(parts[1..], glue)
  }

  /** The source's two passes: double the escapes first, then escape the separators. */
  function EscapeField(value: string): string {
    Join(Split(Join(Split(value, ESCAPE), [ESCAPE, ESCAPE]), SEPARATOR), [ESCAPE, SEPARATOR])
  }

  /** The same transformation, one character at a time. */
  function EscapeChars(value: string): string {
    if value == "" then ""
    else (if value[0] == ESCAPE || value[0] == SEPARATOR then [ESCAPE, value[0]]
          else [value[0]]) + EscapeChars(value[1..])
  }

  function EncodeMember(m: Member): string {
    Join([EscapeField(m.sessionId), EscapeField(m.parentMessageId), EscapeField(m.childMessageId),
          EscapeField(m.taskGroupId)],
         [SEPARATOR])
  }

  // ----- the scanner -----

  datatype Scan = Scan(fields: seq<string>, current: string, escaped: bool)

  const START := Scan([], "", false)

  function Step(st: Scan, c: char): Scan {
    if st.escaped then st.(current := st.current + [c], escaped := false)
    else if c == ESCAPE then st.(escaped := true)
    else if c == SEPARATOR then st.(fields := st.fields + [st.current], current := "")
    else st.(current := st.current + [c])
  }

  function ScanFrom(st: Scan, text: string): Scan
    decreases |text|
  {
    if text == "" then st else ScanFrom(Step(st, text[0]), text[1..])
  }

  function DecodeMember(text: string): Decoded {
    var st := ScanFrom(START, text);
    var fields := st.fields + [st.current];
    if st.escaped then DanglingEscape
    else if |fields| != 4 then WrongFieldCount(|fields|)
    else Decoded(Member(fields[0], fields[1], fields[2], fields[3]))
  }

  /** `splitEscaped` followed by the field-count test of `decodeMember`. */
  method Decode(encoded: string) returns (r: Decoded)
    ensures r == DecodeMember(encoded)
  {
    var fields, current, escaped := [], "", false;
    for i := 0 to |encoded|
      invariant Scan(fields, current, escaped) == ScanFrom(START, encoded[..i])
    {
      var c := encoded[i];
      assert encoded[..i + 1] == encoded[..i] + [c];
      ScanAppend(START, encoded[..i], [c]);
      if escaped {
        current := current + [c];
        escaped := false;
      } else if c == ESCAPE {
        escaped := true;
      } else if c == SEPARATOR {
        fields := fields + [current];
        current := "";
      } else {
        current := current + [c];
      }
    }
    assert encoded[..|encoded|] == encoded;
    if escaped {
      return DanglingEscape;
    }
    fields := fields + [current];
    if |fields| != 4 {
      return WrongFieldCount(|fields|);
    }
    return Decoded(Member(fields[0], fields[1], fields[2], fields[3]));
  }

  lemma {:induction false} ScanAppend(st: Scan, a: string, b: string)
    ensures ScanFrom(st, a + b) == ScanFrom(ScanFrom(st, a), b)
    decreases |a|
  {
    if a == "" {
      assert a + b == b;
    } else {
      assert (a + b)[1..] == a[1..] + b;
      ScanAppend(Step(st, a[0]), a[1..], b);
    }
  }

  // ----- two passes are one -----

  /** What `split(c).join(glue)` does to a text: every `c` becomes `glue`. */
  function ReplaceAll(value: string, c: char, glue: string): string {
    if value == "" then "" else (if value[0] == c then glue else [value[0]]) + ReplaceAll(value[1..], c, glue)
  }

  lemma {:induction false} JoinSplitReplaces(value: string, c: char, glue: string)
    ensures Join(Split(value, c), glue) == ReplaceAll(value, c, glue)
  {
    if value != "" {
      JoinSplitReplaces(value[1..], c, glue);
      var rest := Split(value[1..], c);
      if value[0] == c {
        assert ([""] + rest)[1..] == rest;
      } else {
        var parts := [[value[0]] + rest[0]] + rest[1..];
        assert parts[1..] == rest[1..];
        assert Join(parts, glue) == [value[0]] + Join(rest, glue);
      }
    }
  }

  lemma {:induction false} ReplaceAppend(a: string, b: string, c: char, glue: string)
    ensures ReplaceAll(a + b, c, glue) == ReplaceAll(a, c, glue) + ReplaceAll(b, c, glue)
  {
    if a == "" {
      assert a + b == b;
    } else {
      assert (a + b)[1..] == a[1..] + b;
      ReplaceAppend(a[1..], b, c, glue);
    }
  }

  lemma {:induction false} TwoPassEscapeIsPerCharacter(value: string)
    ensures EscapeField(value) == EscapeChars(value)
  {
    var once := ReplaceAll(value, ESCAPE, [ESCAPE, ESCAPE]);
    JoinSplitReplaces(value, ESCAPE, [ESCAPE, ESCAPE]);
    JoinSplitReplaces(once, SEPARATOR, [ESCAPE, SEPARATOR]);
    ReplaceTwice(value);
  }

  lemma {:induction false} ReplaceTwice(value: string)
    ensures ReplaceAll(ReplaceAll(value, ESCAPE, [ESCAPE, ESCAPE]), SEPARATOR,
                       [ESCAPE, SEPARATOR]) == EscapeChars(value)
  {
    if value != "" {
      var head: string := if value[0] == ESCAPE then [ESCAPE, ESCAPE] else [value[0]];
      var tail := ReplaceAll(value[1..], ESCAPE, [ESCAPE, ESCAPE]);
      ReplaceAppend(head, tail, SEPARATOR, [ESCAPE, SEPARATOR]);
      ReplaceTwice(value[1..]);
      if value[0] == ESCAPE {
        assert head[1..] == [ESCAPE];
        assert head[1..][1..] == "";
      } else {
        assert head[1..] == "";
      }
    }
  }

  // ----- round trip -----

  lemma {:induction false} ScanEscaped(fields: seq<string>, current: string, value: string)
    ensures ScanFrom(Scan(fields, current, false), EscapeChars(value)) == Scan(fields, current + value, false)
    decreases |value|
  {
    if value == "" {
      assert current + value == current;
    } else {
      var head: string := if value[0] == ESCAPE || value[0] == SEPARATOR then [ESCAPE, value[0]] else [value[0]];
      ScanAppend(Scan(fields, current, false), head, EscapeChars(value[1..]));
      assert ScanFrom(Scan(fields, current, false), head) == Scan(fields, current + [value[0]], false) by {
        if |head| == 2 {
          assert head[1..] == [value[0]] && head[1..][1..] == "";
          assert ScanFrom(Scan(fields, current, true), head[1..]) == ScanFrom(Scan(fields, current + [value[0]], false),
                 "");
        } else {
          assert head[1..] == "";
        }
      }
      ScanEscaped(fields, current + [value[0]], value[1..]);
      assert current + [value[0]] + value[1..] == current + value;
    }
  }

  /** Scanning one escaped field and the separator after it appends exactly that field. */
  lemma ScanField(fields: seq<string>, value: string, rest: string)
    ensures ScanFrom(Scan(fields, "", false), EscapeChars(value) + ([SEPARATOR] + rest)) ==
            ScanFrom(Scan(fields + [value], "", false), rest)
  {
    var text := [SEPARATOR] + rest;
    ScanAppend(Scan(fields, "", false), EscapeChars(value), text);
    ScanEscaped(fields, "", value);
    assert "" + value == value;
    assert text[1..] == rest;
  }

  lemma JoinFour(a: string, b: string, c: string, d: string)
    ensures Join([a, b, c, d], [SEPARATOR]) ==
            a + ([SEPARATOR] + (b + ([SEPARATOR] + (c + ([SEPARATOR] + d)))))
  {
    var sep: string := [SEPARATOR];
    assert [a, b, c, d][1..] == [b, c, d];
    assert [b, c, d][1..] == [c, d];
    assert [c, d][1..] == [d];
    assert Join([c, d], sep) == c + (sep + d);
    assert Join([b, c, d], sep) == b + (sep + (c + (sep + d)));
  }

  /** An encoded member is its four escaped fields with separators between them. */
  lemma EncodeUnfolds(m: Member)
    ensures EncodeMember(m) ==
            EscapeChars(m.sessionId) + ([SEPARATOR] + (EscapeChars(m.parentMessageId) + ([SEPARATOR] +
            (EscapeChars(m.childMessageId) + ([SEPARATOR] + EscapeChars(m.taskGroupId))))))
  {
    TwoPassEscapeIsPerCharacter(m.sessionId);
    TwoPassEscapeIsPerCharacter(m.parentMessageId);
    TwoPassEscapeIsPerCharacter(m.childMessageId);
    TwoPassEscapeIsPerCharacter(m.taskGroupId);
    JoinFour(EscapeChars(m.sessionId), EscapeChars(m.parentMessageId), EscapeChars(m.childMessageId),
             EscapeChars(m.taskGroupId));
  }

  lemma ScanFour(a: string, b: string, c: string, d: string)
    ensures ScanFrom(START, EscapeChars(a) + ([SEPARATOR] +
                                              (EscapeChars(b) + ([SEPARATOR] +
                                                                 (EscapeChars(c) + ([SEPARATOR] + EscapeChars(d)))))))
            == Scan([a, b, c], d, false)
  {
    var r3 := EscapeChars(d);
    var r2 := EscapeChars(c) + ([SEPARATOR] + r3);
    var r1 := EscapeChars(b) + ([SEPARATOR] + r2);
    ScanField([], a, r1);
    assert [] + [a] == [a];
    ScanField([a], b, r2);
    assert [a] + [b] == [a, b];
    ScanField([a, b], c, r3);
    assert [a, b] + [c] == [a, b, c];
    ScanEscaped([a, b, c], "", d);
    assert "" + d == d;
  }

  /** Decoding inverts encoding for all four arbitrary strings. */
  lemma RoundTrip(m: Member)
    ensures DecodeMember(EncodeMember(m)) == Decoded(m)
  {
    EncodeUnfolds(m);
    ScanFour(m.sessionId, m.parentMessageId, m.childMessageId, m.taskGroupId);
  }

  /** Two waits share an index entry only if all four of their fields agree. */
  lemma EncodingIsInjective(m: Member, n: Member)
    requires EncodeMember(m) == EncodeMember(n)
    ensures m == n
  {
    RoundTrip(m);
    RoundTrip(n);
  }

  // ----- exactly when decoding fails -----

  /** Length of the run of escape characters that ends just before position `i`. */
  function EscapeRun(text: string, i: nat): (n: nat)
    requires i <= |text|
    ensures n <= i
  {
    if i == 0 || text[i - 1] != ESCAPE then 0 else 1 + EscapeRun(text, i - 1)
  }

  /** Separators before position `i` that follow an even run of escapes. */
  function FreeSeparators(text: string, i: nat): nat
    requires i <= |text|
  {
    if i == 0 then 0
    else FreeSeparators(text, i - 1) + (if text[i - 1] == SEPARATOR && EscapeRun(text, i - 1) % 2 == 0 then 1 else 0)
  }

  lemma {:induction false} ScanMeasures(text: string, i: nat)
    requires i <= |text|
    ensures ScanFrom(START, text[..i]).escaped <==> EscapeRun(text, i) % 2 == 1
    ensures |ScanFrom(START, text[..i]).fields| == FreeSeparators(text, i)
  {
    if i > 0 {
      ScanMeasures(text, i - 1);
      assert text[..i] == text[..i - 1] + [text[i - 1]];
      ScanAppend(START, text[..i - 1], [text[i - 1]]);
      assert ScanFrom(START, text[..i]) == Step(ScanFrom(START, text[..i - 1]), text[i - 1]);
    }
  }

  /** Decoding fails exactly on a dangling escape (an odd run of escapes at the end) or when
      the unescaped separators do not delimit four fields. */
  lemma DecodeFailsExactly(text: string)
    ensures DecodeMember(text) == DanglingEscape <==> EscapeRun(text, |text|) % 2 == 1
    ensures forall n :: DecodeMember(text) == WrongFieldCount(n) <==>
                        EscapeRun(text, |text|) % 2 == 0 && n == FreeSeparators(text, |text|) + 1 && n != 4
    ensures DecodeMember(text).Decoded? <==>
            EscapeRun(text, |text|) % 2 == 0 && FreeSeparators(text, |text|) == 3
  {
    ScanMeasures(text, |text|);
    assert text[..|text|] == text;
  }

  // ----- which texts decoding reads back unchanged -----

  /** Every escape the scanner honours protects a character that needs it. */
  ghost predicate Canonical(text: string) {
    forall i :: 0 <= i < |text| && EscapeRun(text, i) % 2 == 1 ==> text[i] == ESCAPE || text[i] == SEPARATOR
  }

  /** What the scanner has read so far, spelled as `encodeMember` would spell it. */
  function Respell(fields: seq<string>, current: string): string {
    if fields == [] then EscapeChars(current)
    else EscapeChars(fields[0]) + [SEPARATOR] + Respell(fields[1..], current)
  }

  function NeedlessEscapes(text: string, i: nat): nat
    requires i <= |text|
  {
    if i == 0 then 0
    else NeedlessEscapes(text, i - 1) +
         (if EscapeRun(text, i - 1) % 2 == 1 && text[i - 1] != ESCAPE && text[i - 1] != SEPARATOR then 1 else 0)
  }

  lemma {:induction false} EscapeAppend(a: string, b: string)
    ensures EscapeChars(a + b) == EscapeChars(a) + EscapeChars(b)
  {
    if a == "" {
      assert a + b == b;
    } else {
      assert (a + b)[1..] == a[1..] + b;
      EscapeAppend(a[1..], b);
    }
  }

  lemma {:induction false} RespellChar(fields: seq<string>, current: string, c: char)
    ensures Respell(fields, current + [c]) == Respell(fields, current) + EscapeChars([c])
  {
    if fields == [] {
      EscapeAppend(current, [c]);
    } else {
      RespellChar(fields[1..], current, c);
    }
  }

  lemma {:induction false} RespellField(fields: seq<string>, current: string)
    ensures Respell(fields + [current], "") == Respell(fields, current) + [SEPARATOR]
  {
    if fields == [] {
      assert (fields + [current])[1..] == [];
    } else {
      assert (fields + [current])[1..] == fields[1..] + [current];
      RespellField(fields[1..], current);
    }
  }

  /** What the scanner has taken in, spelt canonically, and the escape it has not used yet. */
  function Spelt(st: Scan): string {
    Respell(st.fields, st.current) + if st.escaped then [ESCAPE] else ""
  }

  /** A step adds its character, and drops the escape before it if that was needless. */
  lemma StepSpells(st: Scan, c: char)
    ensures Spelt(Step(st, c)) ==
            (if st.escaped && c != ESCAPE && c != SEPARATOR then Respell(st.fields, st.current) else Spelt(st)) + [c]
  {
    hide Respell, EscapeChars;
    SpeltAlone(c);
    if st.escaped || (c != ESCAPE && c != SEPARATOR) {
      RespellChar(st.fields, st.current, c);
    } else if c == SEPARATOR {
      RespellField(st.fields, st.current);
    }
  }

  lemma SpeltAlone(c: char)
    ensures EscapeChars([c]) == if c == ESCAPE || c == SEPARATOR then [ESCAPE, c] else [c]
  {
    assert [c][1..] == "";
  }

  /** Respelling drops exactly the needless escapes. */
  lemma {:induction false} RespellTracksScan(text: string, i: nat)
    requires i <= |text|
    ensures var st := ScanFrom(START, text[..i]);
            && |Spelt(st)| + NeedlessEscapes(text, i) == i
            && (NeedlessEscapes(text, i) == 0 ==> Spelt(st) == text[..i])
  {
    if i > 0 {
      hide Respell, Step;
      RespellTracksScan(text, i - 1);
      ScanMeasures(text, i - 1);
      var c := text[i - 1];
      var st := ScanFrom(START, text[..i - 1]);
      assert text[..i] == text[..i - 1] + [c];
      ScanAppend(START, text[..i - 1], [c]);
      assert [c][1..] == "";
      assert ScanFrom(START, text[..i]) == Step(st, c);
      StepSpells(st, c);
    }
  }

  lemma {:induction false} NeedlessOnlyIfNotCanonical(text: string, i: nat)
    requires i <= |text|
    ensures NeedlessEscapes(text, i) == 0 <==>
            forall k :: 0 <= k < i && EscapeRun(text, k) % 2 == 1 ==> text[k] == ESCAPE || text[k] == SEPARATOR
  {
    if i > 0 {
      NeedlessOnlyIfNotCanonical(text, i - 1);
    }
  }

  lemma RespellMember(m: Member)
    ensures Respell([m.sessionId, m.parentMessageId, m.childMessageId], m.taskGroupId) == EncodeMember(m)
  {
    var three := [m.sessionId, m.parentMessageId, m.childMessageId];
    assert three[1..] == [m.parentMessageId, m.childMessageId];
    assert three[1..][1..] == [m.childMessageId];
    assert three[1..][1..][1..] == [];
    var r3 := EscapeChars(m.taskGroupId);
    var r2 := EscapeChars(m.childMessageId) + ([SEPARATOR] + r3);
    var r1 := EscapeChars(m.parentMessageId) + ([SEPARATOR] + r2);
    assert Respell(three[1..][1..], m.taskGroupId) == r2;
    assert Respell(three[1..], m.taskGroupId) == r1;
    EncodeUnfolds(m);
  }

  /** A text that decodes is the encoding of what it decodes to exactly when it is canonical. */
  lemma DecodedSpellsItself(text: string)
    requires DecodeMember(text).Decoded?
    ensures EncodeMember(DecodeMember(text).member) == text <==> Canonical(text)
  {
    assert text[..|text|] == text;
    RespellTracksScan(text, |text|);
    NeedlessOnlyIfNotCanonical(text, |text|);
    var st := ScanFrom(START, text);
    var m := DecodeMember(text).member;
    assert st.fields == [m.sessionId, m.parentMessageId, m.childMessageId];
    RespellMember(m);
    var spelt := Respell(st.fields, st.current);
    assert spelt + "" == spelt;
  }

  /** A needless escape changes the text and nothing else: two different texts, one member. */
  lemma NeedlessEscapeIsIgnored(before: string, c: char, rest: string)
    requires EscapeRun(before, |before|) % 2 == 0 && c != ESCAPE && c != SEPARATOR
    ensures before + ([ESCAPE, c] + rest) != before + ([c] + rest)
    ensures DecodeMember(before + ([ESCAPE, c] + rest)) == DecodeMember(before + ([c] + rest))
  {
    assert before[..|before|] == before;
    ScanMeasures(before, |before|);
    var st := ScanFrom(START, before);
    ScanAppend(START, before, [ESCAPE, c] + rest);
    ScanAppend(START, before, [c] + rest);
    assert ([ESCAPE, c] + rest)[1..] == [c] + rest && ([c] + rest)[1..] == rest;
    assert Step(Step(st, ESCAPE), c) == Step(st, c);
    assert |before + ([ESCAPE, c] + rest)| == |before + ([c] + rest)| + 1;
  }
}
