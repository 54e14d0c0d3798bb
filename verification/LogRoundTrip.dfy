/** When parsing a printed log line gives the fields back. */
module LogRoundTrip {
  import opened Options
  import opened Seqs
  import opened Text
  import opened LogLine

  /**
    A key the parser can find again: it has no '=', no leading white space, and does not make the line look
    like JSON or like a bare stream line.
   */
  predicate KeyOk(key: string) {
    && key != "" && '=' !in key && !IsSpace(key[0])
    && !HasPrefix(key, "{") && !HasPrefix(key, "| ") && !HasPrefix(key, "! ")
  }

  /** A value in quotes must have no backslash. */
  predicate Clean(value: string) {
    NeedsQuotes(value) ==> '\\' !in value
  }

  /** What the end of the line leaves of its last value: without quotes it loses white space there. */
  function AtEnd(value: string): string {
    if NeedsQuotes(value) then value else TrimRight(value)
  }

  /** A value that survives anywhere: in quotes without a backslash, or without quotes and not ending in white space. */
  predicate ValueOk(value: string)
    requires value != ""
  {
    Clean(value) && (NeedsQuotes(value) || !IsSpace(value[|value| - 1]))
  }

  predicate FieldsOk(fields: Fields) {
    forall k :: k in NonEmpty(fields) ==> KeyOk(k) && ValueOk(fields[k])
  }

  predicate KeysOk(fields: Fields) {
    forall k :: k in NonEmpty(fields) ==> KeyOk(k)
  }

  /* ---- one value ---- */

  /** A quoted value as it stands in the line after its opening quote. */
  function Body(value: string, tail: string): string {
    EscapeQuotes(value) + "\"" + tail
  }

  lemma BodyStep(value: string, tail: string)
    requires value != ""
    ensures var text, next := Body(value, tail), Body(value[1..], tail);
      if value[0] == '"' then text == ['\\'] + (['"'] + next) else text == [value[0]] + next
  {
  }

  lemma Drop(c: char, s: string)
    ensures ([c] + s)[1..] == s
  {
  }

  /** What one step of the reader does with each kind of first character. */
  lemma {:induction false} ReadStep(c: char, s: string)
    ensures ReadQuoted([c] + s, true) == (var r := ReadQuoted(s, false); Read([c] + r.value, r.rest))
    ensures c == '\\' ==> ReadQuoted([c] + s, false) == ReadQuoted(s, true)
    ensures c == '"' ==> ReadQuoted([c] + s, false) == Read("", TrimSpace(s))
    ensures c != '\\' && c != '"' ==>
      ReadQuoted([c] + s, false) == (var r := ReadQuoted(s, false); Read([c] + r.value, r.rest))
  {
  }

  lemma {:induction false} ReadEscaped(value: string, tail: string)
    requires '\\' !in value
    ensures ReadQuoted(Body(value, tail), false) == Read(value, TrimSpace(tail))
  {
    if value == "" {
      ReadStep('"', tail);
      assert Body(value, tail) == ['"'] + tail;
    } else {
      assert value[0] in value;
      assert forall c :: c in value[1..] ==> c in value;
      ReadEscaped(value[1..], tail);
      BodyStep(value, tail);
      var next := Body(value[1..], tail);
      ReadStep(value[0], next);
      ReadStep('\\', ['"'] + next);
      assert [value[0]] + value[1..] == value;
    }
  }

  lemma {:induction false} SpaceThenTrimmed(tail: string)
    requires Trimmed(tail)
    ensures TrimSpace(" " + tail) == tail
  {
    assert (" " + tail)[1..] == tail;
    assert TrimLeft(" " + tail) == TrimLeft(tail);
  }

  lemma ReadQuotedPrint(value: string, tail: string)
    requires NeedsQuotes(value) && '\\' !in value
    ensures ReadValue(Quote(value) + tail) == Read(value, TrimSpace(tail))
  {
    ReadEscaped(value, tail);
    QuotedAs(EscapeQuotes(value), tail);
    Drop('"', Body(value, tail));
    ReadOpened(['"'] + Body(value, tail));
  }

  lemma QuotedAs(escaped: string, tail: string)
    ensures ("\"" + escaped + "\"") + tail == ['"'] + (escaped + "\"" + tail)
  {
  }

  lemma ReadOpened(line: string)
    requires line != "" && line[0] == '"'
    ensures ReadValue(line) == ReadQuoted(line[1..], false)
  {
  }

  lemma PlainChars(value: string)
    requires value != "" && !NeedsQuotes(value)
    ensures ' ' !in value && value[0] != '"'
  {
    assert ' ' in " \t=\"" && '"' in " \t=\"";
    assert value[0] in value;
  }

  lemma ReadPlainPrint(value: string, tail: string)
    requires value != "" && !NeedsQuotes(value)
    ensures ReadValue(value) == Read(value, "") && ReadValue(value + " " + tail) == Read(value, tail)
  {
    PlainChars(value);
    IndexOfPrefix(value, tail, ' ');
    var line := value + [' '] + tail;
    assert line == value + " " + tail;
    assert line[..|value|] == value && line[|value| + 1..] == tail;
  }

  /** Reading a printed value, alone or followed by a space and more fields, gives the value and what follows. */
  lemma ReadPrinted(value: string, tail: string)
    requires value != "" && Clean(value)
    ensures ReadValue(Quote(value)) == Read(value, "")
    ensures Trimmed(tail) ==>
      ReadValue(Quote(value) + (" " + tail)).value == value
      && TrimSpace(ReadValue(Quote(value) + (" " + tail)).rest) == tail
  {
    if NeedsQuotes(value) {
      ReadQuotedPrint(value, "");
      assert Quote(value) + "" == Quote(value);
      ReadQuotedPrint(value, " " + tail);
    } else {
      ReadPlainPrint(value, tail);
      assert value + " " + tail == value + (" " + tail);
    }
    if Trimmed(tail) {
      SpaceThenTrimmed(tail);
      TrimSpaceOfTrimmed(tail);
    }
  }

  /** The parser's loop takes one field off the line. */
  lemma {:induction false} ParseOne(key: string, rest: string, acc: Fields)
    requires key != "" && '=' !in key
    ensures |TrimSpace(ReadValue(rest).rest)| <= |rest|
    ensures ParseFields(key + "=" + rest, acc)
         == ParseFields(TrimSpace(ReadValue(rest).rest), acc[key := ReadValue(rest).value])
  {
    var line := key + "=" + rest;
    IndexOfPrefix(key, rest, '=');
    assert line == key + ['='] + rest;
    assert line[..|key|] == key && line[|key| + 1..] == rest;
    ReadValueShrinks(rest);
  }

  /* ---- the whole line ---- */

  lemma JoinHead(order: seq<string>, fields: Fields)
    requires order != [] && forall k :: k in order ==> k in fields
    ensures (forall k :: k in order[1..] ==> k in fields) && order[0] in fields
    ensures var key, tail := order[0], Join(Parts(order[1..], fields), " ");
      Join(Parts(order, fields), " ")
      == key + "=" + (if |order| == 1 then Quote(fields[key]) else Quote(fields[key]) + (" " + tail))
  {
    var parts := Parts(order, fields);
    assert order[0] in order && parts[0] == Field(order[0], fields[order[0]]);
    assert parts[1..] == Parts(order[1..], fields);
    if |order| > 1 {
      Regroup(order[0] + "=", Quote(fields[order[0]]), Join(parts[1..], " "));
    }
  }

  lemma Regroup(head: string, printed: string, tail: string)
    ensures (head + printed) + " " + tail == head + (printed + (" " + tail))
  {
  }

  lemma {:induction false} TrimRightKeepsHead(s: string)
    requires s != "" && !IsSpace(s[0])
    ensures TrimRight(s) != "" && TrimRight(s)[0] == s[0] && Trimmed(TrimRight(s))
  {
    if IsSpace(s[|s| - 1]) {
      TrimRightKeepsHead(s[..|s| - 1]);
    }
  }

  lemma {:induction false} TrimRightKeepsFront(front: string, s: string)
    requires TrimRight(s) != "" || (front != "" && !IsSpace(front[|front| - 1]))
    ensures TrimRight(front + s) == front + TrimRight(s)
    decreases |s|
  {
    if s == "" {
      assert front + s == front;
    } else if IsSpace(s[|s| - 1]) {
      assert (front + s)[..|front + s| - 1] == front + s[..|s| - 1];
      TrimRightKeepsFront(front, s[..|s| - 1]);
    }
  }

  lemma {:induction false} TrimKeepsFront(front: string, s: string)
    requires front != "" && !IsSpace(front[0])
    requires TrimRight(s) != "" || !IsSpace(front[|front| - 1])
    ensures TrimSpace(front + s) == front + TrimRight(s)
  {
    assert (front + s)[0] == front[0];
    TrimRightKeepsFront(front, s);
  }

  /** The last value as the trimmed line ends with it. */
  lemma {:induction false} LastTrims(key: string, value: string)
    requires KeyOk(key) && value != ""
    ensures TrimSpace(Field(key, value)) == key + "=" + (if NeedsQuotes(value) then Quote(value) else TrimRight(value))
    ensures Clean(value) && NeedsQuotes(value) ==> ReadValue(Quote(value)) == Read(value, "")
    ensures !NeedsQuotes(value) ==> ReadValue(TrimRight(value)) == Read(TrimRight(value), "")
  {
    var front := key + "=";
    assert front[0] == key[0] && front[|front| - 1] == '=';
    TrimKeepsFront(front, Quote(value));
    if NeedsQuotes(value) {
      assert Quote(value)[|Quote(value)| - 1] == '"';
      if Clean(value) {
        ReadPrinted(value, "");
      }
    } else {
      var kept := TrimRight(value);
      TrimRightPrefix(value);
      assert forall c :: c in kept ==> c in value;
      if kept != "" {
        ReadPlainPrint(kept, "");
      }
    }
  }

  /** The trimmed line starts with its first key. */
  lemma {:induction false} LineTrims(order: seq<string>, fields: Fields)
    requires order != [] && forall k :: k in order ==> k in fields && fields[k] != "" && KeyOk(k)
    ensures order[0] in order && KeyOk(order[0]) && forall k :: k in order[1..] ==> k in fields
    ensures var line, key := Join(Parts(order, fields), " "), order[0];
      && line != "" && line[0] == key[0] && key + "=" <= TrimSpace(line)
      && (|order| > 1 ==>
           (var tail := Join(Parts(order[1..], fields), " ");
            Trimmed(TrimSpace(tail)) && TrimSpace(line) == key + "=" + (Quote(fields[key]) + (" " + TrimSpace(tail)))))
    decreases |order|
  {
    var key := order[0];
    assert key in order;
    assert forall k :: k in order[1..] ==> k in order;
    JoinHead(order, fields);
    var head := key + "=" + Quote(fields[key]);
    assert head[0] == key[0];
    if |order| == 1 {
      LastTrims(key, fields[key]);
    } else {
      LineTrims(order[1..], fields);
      var tail := Join(Parts(order[1..], fields), " ");
      assert order[1..][0] in order;
      TrimRightKeepsHead(tail);
      TrimKeepsFront(head + " ", tail);
      assert (head + " ")[0] == key[0];
      Regroup(key + "=", Quote(fields[key]), tail);
      Regroup(key + "=", Quote(fields[key]), TrimRight(tail));
    }
  }

  /** What the parser finds: every field in order, the last one as the end of the line leaves it. */
  ghost function Found(order: seq<string>, fields: Fields): Fields
    requires forall k :: k in order ==> k in fields
  {
    map k | k in order :: if k == order[|order| - 1] then AtEnd(fields[k]) else fields[k]
  }

  lemma FoundStep(order: seq<string>, fields: Fields, acc: Fields)
    requires |order| > 1 && NoDup(order) && forall k :: k in order ==> k in fields
    ensures order[0] in fields && forall k :: k in order[1..] ==> k in fields
    ensures acc[order[0] := fields[order[0]]] + Found(order[1..], fields) == acc + Found(order, fields)
  {
    assert order == [order[0]] + order[1..];
    assert order[0] in order && order[0] != order[|order| - 1];
  }

  lemma {:induction false} ParsePrinted(order: seq<string>, fields: Fields, acc: Fields)
    requires order != [] && NoDup(order)
    requires forall k :: k in order ==> k in fields && fields[k] != "" && KeyOk(k) && Clean(fields[k])
    ensures ParseFields(TrimSpace(Join(Parts(order, fields), " ")), acc) == acc + Found(order, fields)
    decreases |order|
  {
    assert order[0] in order;
    JoinHead(order, fields);
    if |order| == 1 {
      ParseLast(order[0], fields[order[0]], acc);
      assert order == [order[0]];
    } else {
      ParseFirst(order, fields, acc);
      assert forall k :: k in order[1..] ==> k in order;
      ParsePrinted(order[1..], fields, acc[order[0] := fields[order[0]]]);
      FoundStep(order, fields, acc);
    }
  }

  lemma {:induction false} ParseLast(key: string, value: string, acc: Fields)
    requires value != "" && KeyOk(key) && Clean(value)
    ensures ParseFields(TrimSpace(key + "=" + Quote(value)), acc) == acc[key := AtEnd(value)]
  {
    LastTrims(key, value);
    ParseOne(key, if NeedsQuotes(value) then Quote(value) else TrimRight(value), acc);
    NothingLeft(acc[key := AtEnd(value)]);
  }

  lemma {:induction false} ParseFirst(order: seq<string>, fields: Fields, acc: Fields)
    requires |order| > 1 && (forall k :: k in order ==> k in fields && fields[k] != "" && KeyOk(k))
    requires order[0] in fields && Clean(fields[order[0]])
    ensures order[0] in order && forall k :: k in order[1..] ==> k in fields
    ensures ParseFields(TrimSpace(Join(Parts(order, fields), " ")), acc)
         == ParseFields(TrimSpace(Join(Parts(order[1..], fields), " ")), acc[order[0] := fields[order[0]]])
  {
    var key := order[0];
    LineTrims(order, fields);
    var tail := TrimSpace(Join(Parts(order[1..], fields), " "));
    ReadPrinted(fields[key], tail);
    ParseOne(key, Quote(fields[key]) + (" " + tail), acc);
  }

  lemma KeyStartsLine(key: string, line: string)
    requires KeyOk(key) && key + "=" <= line
    ensures !HasPrefix(line, "{") && !HasPrefix(line, "| ") && !HasPrefix(line, "! ")
  {
    assert line[0] == key[0];
    assert line[1] == if |key| == 1 then '=' else key[1];
    assert |key| > 1 ==> key[..2] == [key[0], key[1]];
  }

  lemma {:induction false} ParsesFields(fields: Fields, order: seq<string>, json: string -> Option<Fields>)
    requires order != [] && (forall k :: k in order ==> k in fields && fields[k] != "" && KeyOk(k))
    ensures ParseLine(Join(Parts(order, fields), " "), json).fields
         == ParseFields(TrimSpace(Join(Parts(order, fields), " ")), map[])
  {
    assert order[0] in order;
    LineTrims(order, fields);
    KeyStartsLine(order[0], TrimSpace(Join(Parts(order, fields), " ")));
  }

  lemma ParsesAs(fields: Fields, order: seq<string>, json: string -> Option<Fields>)
    requires order != [] && NoDup(order)
    requires forall k :: k in order ==> k in fields && fields[k] != "" && KeyOk(k) && Clean(fields[k])
    ensures ParseLine(Join(Parts(order, fields), " "), json).fields == Found(order, fields)
  {
    ParsesFields(fields, order, json);
    ParsePrinted(order, fields, map[]);
    assert map[] + Found(order, fields) == Found(order, fields);
  }

  /** The last value printed is in quotes or does not end in white space. */
  predicate EndsOk(fields: Fields, order: seq<string>)
    requires forall k :: k in order ==> k in fields
  {
    order != [] ==> AtEnd(fields[order[|order| - 1]]) == fields[order[|order| - 1]]
  }

  lemma {:induction false} EndKeeps(value: string)
    requires value != ""
    ensures AtEnd(value) == value <==> NeedsQuotes(value) || !IsSpace(value[|value| - 1])
  {
    TrimRightPrefix(value);
  }

  lemma FoundAll(order: seq<string>, fields: Fields)
    requires order != [] && forall k :: k in order <==> k in NonEmpty(fields)
    ensures Found(order, fields) == NonEmpty(fields) <==> EndsOk(fields, order)
  {
    var found, last := Found(order, fields), order[|order| - 1];
    assert last in order && found[last] == AtEnd(fields[last]) && NonEmpty(fields)[last] == fields[last];
    if EndsOk(fields, order) {
      assert found.Keys == NonEmpty(fields).Keys;
      assert forall k :: k in found ==> found[k] == NonEmpty(fields)[k];
    }
  }

  /* ---- a backslash inside quotes ---- */

  function Backslashes(n: nat): (s: string)
    ensures |s| == n && forall i :: 0 <= i < n ==> s[i] == '\\'
  {
    seq(n, _ => '\\')
  }

  /** What is read after a backslash the printer did not put there. */
  lemma {:induction false} AfterBackslash(value: string, tail: string)
    ensures var r := ReadQuoted(Body(value, tail), true).value;
      if value == "" then r != "" && r[0] == '"'
      else if value[0] == '"' then r == "\\"
      else r == [value[0]] + ReadQuoted(Body(value[1..], tail), false).value
  {
    if value == "" {
      assert Body(value, tail) == ['"'] + tail;
      ReadStep('"', tail);
    } else {
      BodyStep(value, tail);
      var next := Body(value[1..], tail);
      ReadStep('\\', ['"'] + next);
      ReadStep('"', next);
      ReadStep(value[0], next);
    }
  }

  /** Reading can lose backslashes and cannot gain any at the front. */
  lemma {:induction false} NeverGainsBackslashes(value: string, tail: string, n: nat)
    requires n > 0
    ensures ReadQuoted(Body(value, tail), false).value != Backslashes(n) + value
    decreases |value|
  {
    if value == "" {
      assert Body(value, tail) == ['"'] + tail;
      ReadStep('"', tail);
    } else {
      var rest, next := value[1..], Body(value[1..], tail);
      BodyStep(value, tail);
      ReadStep(value[0], next);
      ReadStep('\\', ['"'] + next);
      ReadStep('"', next);
      assert (Backslashes(n) + value)[0] == '\\';
      if value[0] == '\\' {
        assert value == ['\\'] + rest;
        AfterBackslash(rest, tail);
        if rest != "" && rest[0] != '"' {
          NeverGainsBackslashes(rest[1..], tail, n + 1);
          TwoMore(n, rest);
          Cancel(rest[0], ReadQuoted(Body(rest[1..], tail), false).value, Backslashes(n + 1) + rest[1..]);
        }
      }
    }
  }

  lemma Cancel(c: char, a: string, b: string)
    ensures [c] + a == [c] + b <==> a == b
  {
    Drop(c, a);
    Drop(c, b);
  }

  lemma TwoMore(n: nat, rest: string)
    requires rest != ""
    ensures rest[0] == '\\' ==>
      Backslashes(n) + (['\\'] + rest) == ['\\'] + (Backslashes(n + 1) + rest[1..])
  {
  }

  /** A quoted value with a backslash is never read back as itself, whatever follows it on the line. */
  lemma {:induction false} BackslashNeverSurvives(value: string, tail: string)
    requires '\\' in value
    ensures ReadQuoted(Body(value, tail), false).value != value
    decreases |value|
  {
    var rest, next := value[1..], Body(value[1..], tail);
    assert value == [value[0]] + rest;
    BodyStep(value, tail);
    ReadStep(value[0], next);
    if value[0] == '\\' {
      AfterBackslash(rest, tail);
      if rest != "" && rest[0] != '"' {
        NeverGainsBackslashes(rest[1..], tail, 1);
        assert rest[0] == '\\' ==> rest == Backslashes(1) + rest[1..];
      }
    } else {
      BackslashNeverSurvives(rest, tail);
      ReadStep('\\', ['"'] + next);
    }
  }

  /* ---- and no other text of the line can stand in for it ---- */

  /** The parser spends one '=' on every value it reads, and the printed line has none to spare. */
  function Eqs(s: string): nat {
    if s == "" then 0 else (if s[0] == '=' then 1 else 0) + Eqs(s[1..])
  }

  lemma {:induction false} EqsAdd(a: string, b: string)
    ensures Eqs(a + b) == Eqs(a) + Eqs(b)
  {
    if a == "" {
      assert a + b == b;
    } else {
      assert (a + b)[1..] == a[1..] + b;
      EqsAdd(a[1..], b);
    }
  }

  lemma {:induction false} NoEqs(s: string)
    requires '=' !in s
    ensures Eqs(s) == 0
  {
    if s != "" {
      NoEqs(s[1..]);
    }
  }

  lemma {:induction false} EscapeEqs(value: string)
    ensures Eqs(EscapeQuotes(value)) == Eqs(value)
  {
    if value != "" {
      EscapeEqs(value[1..]);
      var head := if value[0] == '"' then "\\\"" else [value[0]];
      EqsAdd(head, EscapeQuotes(value[1..]));
      assert head[1..] == "" || head[1..] == "\"";
    }
  }

  lemma {:induction false} QuoteEqs(value: string)
    ensures Eqs(Quote(value)) == Eqs(value)
  {
    EscapeEqs(value);
    NoEqs("\"");
    EqsAdd("\"" + EscapeQuotes(value), "\"");
    EqsAdd("\"", EscapeQuotes(value));
    NoEqs("\"\"");
  }

  lemma {:induction false} TrimEqs(s: string)
    ensures Eqs(TrimSpace(s)) <= Eqs(s)
  {
    var left := TrimLeft(s);
    var right := TrimRight(left);
    TrimLeftSuffix(s);
    TrimRightPrefix(left);
    assert s == s[..|s| - |left|] + left && left == right + left[|right|..];
    EqsAdd(s[..|s| - |left|], left);
    EqsAdd(right, left[|right|..]);
  }

  lemma {:induction false} ReadQuotedEqs(s: string, escaped: bool)
    ensures var r := ReadQuoted(s, escaped); Eqs(r.value) + Eqs(r.rest) <= Eqs(s)
  {
    if s != "" {
      TrimEqs(s[1..]);
      ReadQuotedEqs(s[1..], true);
      ReadQuotedEqs(s[1..], false);
      Drop(s[0], ReadQuoted(s[1..], false).value);
    }
  }

  /** Reading a value and trimming what follows makes no '='. */
  lemma {:induction false} ReadEqs(line: string)
    ensures var r := ReadValue(line); Eqs(r.value) + Eqs(TrimSpace(r.rest)) <= Eqs(line)
  {
    var r := ReadValue(line);
    TrimEqs(r.rest);
    if line != "" && line[0] == '"' {
      ReadQuotedEqs(line[1..], false);
    } else if line != "" {
      var space := IndexOf(line, ' ');
      if space < |line| {
        assert line == r.value + ([' '] + r.rest);
        EqsAdd(r.value, [' '] + r.rest);
        Drop(' ', r.rest);
      }
    }
  }

  /** What the fields of a map cost: an '=' each, and those in their values. */
  ghost function Weight(m: Fields): nat {
    if m == map[] then 0
    else
      var k :| k in m;
      1 + Eqs(m[k]) + Weight(m - {k})
  }

  lemma {:induction false} WeightWithout(m: Fields, k: string)
    requires k in m
    ensures Weight(m) == 1 + Eqs(m[k]) + Weight(m - {k})
    decreases |m|
  {
    var x :| x in m && Weight(m) == 1 + Eqs(m[x]) + Weight(m - {x});
    if x != k {
      WeightWithout(m - {x}, k);
      WeightWithout(m - {k}, x);
      assert m - {x} - {k} == m - {k} - {x};
    }
  }

  lemma {:induction false} WeightUpdate(m: Fields, k: string, value: string)
    ensures Weight(m[k := value]) == Weight(m - {k}) + 1 + Eqs(value)
    ensures Weight(m - {k}) + (if k in m then 1 + Eqs(m[k]) else 0) == Weight(m)
  {
    WeightWithout(m[k := value], k);
    assert m[k := value] - {k} == m - {k};
    if k in m {
      WeightWithout(m, k);
    } else {
      assert m - {k} == m;
    }
  }

  /** The parser's loop either stops or takes a field off the line. */
  lemma FieldTaken(line: string, acc: Fields)
    ensures var eq := IndexOf(line, '=');
      if eq == 0 || eq == |line| then ParseFields(line, acc) == acc
      else
        && |TrimSpace(ReadValue(line[eq + 1..]).rest)| < |line|
        && ParseFields(line, acc)
        == ParseFields(TrimSpace(ReadValue(line[eq + 1..]).rest), acc[line[..eq] := ReadValue(line[eq + 1..]).value])
  {
    var eq := IndexOf(line, '=');
    if 0 < eq < |line| {
      ReadValueShrinks(line[eq + 1..]);
    }
  }

  lemma {:induction false} NothingLeft(acc: Fields)
    ensures ParseFields("", acc) == acc
  {
  }

  /** One round of the loop pays for the field it sets. */
  lemma {:induction false} RoundWeighs(line: string, acc: Fields)
    requires 0 < IndexOf(line, '=') < |line|
    ensures var eq := IndexOf(line, '='); var r := ReadValue(line[eq + 1..]);
      Weight(acc - {line[..eq]}) + 1 + Eqs(r.value) + Eqs(TrimSpace(r.rest)) <= Weight(acc - {line[..eq]}) + Eqs(line)
  {
    var eq := IndexOf(line, '=');
    assert line == line[..eq] + (['='] + line[eq + 1..]);
    EqsAdd(line[..eq], ['='] + line[eq + 1..]);
    Drop('=', line[eq + 1..]);
    ReadEqs(line[eq + 1..]);
  }

  lemma {:induction false} ParseWeighs(line: string, acc: Fields)
    ensures Weight(ParseFields(line, acc)) <= Weight(acc) + Eqs(line)
    decreases |line|
  {
    var eq := IndexOf(line, '=');
    FieldTaken(line, acc);
    if 0 < eq < |line| {
      var r := ReadValue(line[eq + 1..]);
      RoundWeighs(line, acc);
      WeightUpdate(acc, line[..eq], r.value);
      ParseWeighs(TrimSpace(r.rest), acc[line[..eq] := r.value]);
    }
  }

  /** A field set anew costs what it cost before a second time. */
  lemma {:induction false} SetAnewWeighs(line: string, acc: Fields, key: string)
    requires key in acc && (key in ParseFields(line, acc) ==> ParseFields(line, acc)[key] != acc[key])
    ensures Weight(ParseFields(line, acc)) + 1 + Eqs(acc[key]) <= Weight(acc) + Eqs(line)
    decreases |line|
  {
    var eq := IndexOf(line, '=');
    FieldTaken(line, acc);
    if 0 < eq < |line| {
      var r, rest := ReadValue(line[eq + 1..]), TrimSpace(ReadValue(line[eq + 1..]).rest);
      RoundWeighs(line, acc);
      WeightUpdate(acc, line[..eq], r.value);
      if line[..eq] == key {
        ParseWeighs(rest, acc[key := r.value]);
      } else {
        SetAnewWeighs(rest, acc[line[..eq] := r.value], key);
      }
    }
  }

  /** The line printed for some keys has exactly the '=' that their fields cost. */
  lemma {:induction false} LineEqs(order: seq<string>, fields: Fields)
    requires order != [] && forall k :: k in order ==> k in fields && KeyOk(k)
    ensures order[0] in order && forall k :: k in order[1..] ==> k in fields
    ensures Eqs(Join(Parts(order, fields), " "))
         == 1 + Eqs(fields[order[0]]) + Eqs(Join(Parts(order[1..], fields), " "))
  {
    var key := order[0];
    assert key in order;
    JoinHead(order, fields);
    var tail := Join(Parts(order[1..], fields), " ");
    var value := if |order| == 1 then Quote(fields[key]) else Quote(fields[key]) + (" " + tail);
    assert key + "=" + value == key + ("=" + value);
    EqsAdd(key, "=" + value);
    NoEqs(key);
    Drop('=', value);
    QuoteEqs(fields[key]);
    EqsAdd(Quote(fields[key]), " " + tail);
    Drop(' ', tail);
  }

  lemma {:induction false} LineWeighs(order: seq<string>, fields: Fields, m: Fields)
    requires NoDup(order) && (forall k :: k in order ==> k in fields && KeyOk(k))
    requires (forall k :: k in m <==> k in order) && forall k :: k in order ==> m[k] == fields[k]
    ensures Eqs(Join(Parts(order, fields), " ")) == Weight(m)
    decreases |order|
  {
    if order == [] {
      assert m == map[];
    } else {
      LineEqs(order, fields);
      assert order == [order[0]] + order[1..];
      WeightWithout(m, order[0]);
      LineWeighs(order[1..], fields, m - {order[0]});
    }
  }

  /** A value with a backslash in quotes is misread where it stands, and nothing is left to pay for it again. */
  lemma {:induction false} MisreadWeighs(order: seq<string>, fields: Fields, acc: Fields)
    requires order != [] && order[0] !in acc && (forall k :: k in order ==> k in fields && fields[k] != "" && KeyOk(k))
    requires !Clean(fields[order[0]])
    ensures var line := Join(Parts(order, fields), " "); var parsed := ParseFields(TrimSpace(line), acc);
      order[0] in parsed && parsed[order[0]] == fields[order[0]] ==> Weight(parsed) < Weight(acc) + Eqs(line)
  {
    var key, value := order[0], fields[order[0]];
    assert key in order;
    var rest := AfterFirst(order, fields);
    var printed := Quote(value) + rest;
    ParseOne(key, printed, acc);
    QuotedAs(EscapeQuotes(value), rest);
    Drop('"', Body(value, rest));
    ReadOpened(printed);
    BackslashNeverSurvives(value, rest);
    var r := ReadValue(printed);
    ReadEqs(printed);
    QuoteEqs(value);
    EqsAdd(Quote(value), rest);
    LineEqs(order, fields);
    WeightUpdate(acc, key, r.value);
    var parsed := ParseFields(TrimSpace(r.rest), acc[key := r.value]);
    if key in parsed && parsed[key] == value {
      SetAnewWeighs(TrimSpace(r.rest), acc[key := r.value], key);
    }
  }

  /** What stands behind the first quoted value of the trimmed line. */
  lemma {:induction false} AfterFirst(order: seq<string>, fields: Fields) returns (rest: string)
    requires order != [] && (forall k :: k in order ==> k in fields && fields[k] != "" && KeyOk(k))
    requires NeedsQuotes(fields[order[0]])
    ensures forall k :: k in order[1..] ==> k in fields
    ensures TrimSpace(Join(Parts(order, fields), " ")) == order[0] + "=" + (Quote(fields[order[0]]) + rest)
    ensures Eqs(rest) <= Eqs(Join(Parts(order[1..], fields), " "))
  {
    var key := order[0];
    assert key in order;
    LineTrims(order, fields);
    if |order| == 1 {
      JoinHead(order, fields);
      LastTrims(key, fields[key]);
      rest := "";
      assert Quote(fields[key]) + "" == Quote(fields[key]);
    } else {
      var tail := TrimSpace(Join(Parts(order[1..], fields), " "));
      rest := " " + tail;
      Drop(' ', tail);
      TrimEqs(Join(Parts(order[1..], fields), " "));
    }
  }

  /** Wherever on the line that value stands. */
  lemma {:induction false} NeverComesBack(order: seq<string>, fields: Fields, acc: Fields)
    requires NoDup(order) && (forall k :: k in order ==> k in fields && fields[k] != "" && KeyOk(k) && k !in acc)
    requires exists k :: k in order && !Clean(fields[k])
    ensures var line := Join(Parts(order, fields), " "); var parsed := ParseFields(TrimSpace(line), acc);
      (forall k :: k in order ==> k in parsed && parsed[k] == fields[k]) ==> Weight(parsed) < Weight(acc) + Eqs(line)
    decreases |order|
  {
    var key := order[0];
    assert key in order && order == [key] + order[1..];
    if !Clean(fields[key]) {
      MisreadWeighs(order, fields, acc);
    } else {
      ParseFirst(order, fields, acc);
      NeverComesBack(order[1..], fields, acc[key := fields[key]]);
      LineEqs(order, fields);
      WeightUpdate(acc, key, fields[key]);
    }
  }

  /**
    Exactly when one printed line comes back, whatever its fields: when none of its values in quotes has a backslash,
    and the last one is in quotes or does not end in white space.
   */
  lemma {:induction false} LineComesBackIff(fields: Fields, order: seq<string>, json: string -> Option<Fields>)
    requires KeysOk(fields) && PrintOrder(fields, order)
    ensures forall k :: k in order ==> k in Elems(order)
    ensures ParseLine(Join(Parts(order, fields), " "), json).fields == NonEmpty(fields) <==>
            (forall k :: k in order ==> Clean(fields[k])) && EndsOk(fields, order)
  {
    assert forall k :: k in order <==> k in NonEmpty(fields) by {
      assert forall k :: k in order <==> k in Elems(order);
    }
    if order == [] {
      assert NonEmpty(fields) == map[];
      assert TrimSpace("") == "";
    } else if forall k :: k in order ==> Clean(fields[k]) {
      ParsesAs(fields, order, json);
      FoundAll(order, fields);
    } else {
      var line := Join(Parts(order, fields), " ");
      ParsesFields(fields, order, json);
      NeverComesBack(order, fields, map[]);
      LineWeighs(order, fields, NonEmpty(fields));
    }
  }

  /** Parsing a printed line gives back exactly the fields that have a value, whatever the order of the extra keys. */
  lemma RoundTrip(fields: Fields, line: string, json: string -> Option<Fields>)
    requires FieldsOk(fields) && Printed(fields, line)
    ensures ParseLine(line, json).fields == NonEmpty(fields)
  {
    var order :| PrintOrder(fields, order) && (forall k :: k in order ==> k in fields)
      && line == Join(Parts(order, fields), " ");
    LineComesBackIff(fields, order, json);
    if order != [] {
      assert order[|order| - 1] in order;
      assert order[|order| - 1] in Elems(order);
      EndKeeps(fields[order[|order| - 1]]);
    }
  }

  lemma SingleOrder(k: string, value: string)
    requires value != ""
    ensures PrintOrder(map[k := value], [k])
  {
    var fields := map[k := value];
    KnownSpec(KNOWN_KEYS, fields);
    var known := Known(KNOWN_KEYS, fields);
    assert forall x :: x in known ==> x in NonEmpty(fields) && x == k;
    if known != [] {
      NoDupCardinality(known);
      assert known[0] in known;
      assert Elems(known) == {k};
      assert known == [k];
    }
  }

  /** A field printed alone comes back, under any usable key, if and only if ValueOk holds of its value. */
  lemma {:induction false} FieldSurvivesIff(key: string, value: string, json: string -> Option<Fields>)
    requires KeyOk(key) && value != ""
    ensures ParseLine(Field(key, value), json).fields == map[key := value] <==> ValueOk(value)
  {
    var fields := map[key := value];
    SingleOrder(key, value);
    SinglePrinted(key, value);
    LineComesBackIff(fields, [key], json);
    assert Join(Parts([key], fields), " ") == Field(key, value);
    assert [key][0] == key && forall k :: k in [key] ==> k == key;
    EndKeeps(value);
  }

  ghost predicate DrawnFrom(fields: Fields, values: iset<string>) {
    forall k :: k in fields ==> KeyOk(k) && fields[k] in values
  }

  lemma SinglePrinted(k: string, value: string)
    requires value != ""
    ensures Printed(map[k := value], Field(k, value)) && NonEmpty(map[k := value]) == map[k := value]
  {
    SingleOrder(k, value);
    assert Join(Parts([k], map[k := value]), " ") == Field(k, value);
  }

  /** Every line whose values are drawn from a family round-trips if and only if ValueOk holds of the whole family. */
  lemma RoundTripDomainIsExact(values: iset<string>, json: string -> Option<Fields>)
    ensures (forall v :: v in values && v != "" ==> ValueOk(v)) <==>
            (forall fields, line :: DrawnFrom(fields, values) && Printed(fields, line) ==>
              ParseLine(line, json).fields == NonEmpty(fields))
  {
    if forall v :: v in values && v != "" ==> ValueOk(v) {
      forall fields, line | DrawnFrom(fields, values) && Printed(fields, line)
        ensures ParseLine(line, json).fields == NonEmpty(fields)
      {
        RoundTrip(fields, line, json);
      }
    } else {
      var v :| v in values && v != "" && !ValueOk(v);
      assert KeyOk("k");
      FieldSurvivesIff("k", v, json);
      SinglePrinted("k", v);
      assert DrawnFrom(map["k" := v], values);
    }
  }

  /** The printer leaves a backslash inside quotes as it is, and the parser drops it: "\ " comes back as " ". */
  lemma BackslashIsLost(json: string -> Option<Fields>)
    ensures ParseLine(Field("msg", "\\ "), json).fields == map["msg" := " "]
  {
    var printed := "\"\\ \"";
    assert Quote("\\ ") == printed by {
      assert "\\ "[1] == ' ' && ' ' in "\\ ";
      assert "\\ "[1..] == " " && EscapeQuotes(" ") == " ";
    }
    assert ReadValue(printed) == Read(" ", "") by {
      assert printed[1..] == ['\\'] + ([' '] + (['"'] + ""));
      ReadStep('\\', [' '] + (['"'] + ""));
      ReadStep(' ', ['"'] + "");
      ReadStep('"', "");
    }
    MessageOnly(printed, Read(" ", ""), json);
  }

  lemma MessageOnly(printed: string, r: Read, json: string -> Option<Fields>)
    requires printed != "" && Trimmed(printed) && ReadValue(printed) == r && r.rest == ""
    ensures ParseLine("msg" + "=" + printed, json).fields == map["msg" := r.value]
  {
    var line := "msg" + "=" + printed;
    assert line[0] == 'm' && line[|line| - 1] == printed[|printed| - 1];
    TrimSpaceOfTrimmed(line);
    ParseOne("msg", printed, map[]);
  }
}
