/** The key=value log line: the quoting printer, the escape-aware parser, and what each stands for. */
module LogLine {
  import opened Options
  import opened Seqs
  import opened Text

  type Fields = map<string, string>

  const KNOWN_KEYS: seq<string> :=
    ["ts", "level", "event", "run", "maand", "seq", "worker", "job", "phase", "action", "cmd", "stream", "exit",
     "duration_ms", "reason", "msg"]

  /* ---- printing ---- */

  predicate NeedsQuotes(value: string) {
    exists c :: c in value && c in " \t=\""
  }

  function EscapeQuotes(value: string): string {
    if value == "" then ""
    else (if value[0] == '"' then "\\\"" else [value[0]]) + EscapeQuotes(value[1..])
  }

  function Quote(value: string): string {
    if value == "" then "\"\""
    else if !NeedsQuotes(value) then value
    else "\"" + EscapeQuotes(value) + "\""
  }

  /** A value is printed as it is exactly if it has a character and none of these. */
  lemma PlainIff(value: string)
    ensures Quote(value) == value <==>
      value != "" && ' ' !in value && '\t' !in value && '=' !in value && '"' !in value
  {
    if value != "" && NeedsQuotes(value) {
      EscapeGrows(value);
    }
  }

  lemma {:induction false} EscapeGrows(value: string)
    ensures |EscapeQuotes(value)| >= |value|
  {
    if value != "" {
      EscapeGrows(value[1..]);
    }
  }

  function Field(key: string, value: string): string {
    key + "=" + Quote(value)
  }

  ghost function Parts(order: seq<string>, fields: Fields): seq<string>
    requires forall k :: k in order ==> k in fields
  {
    seq(|order|, i requires 0 <= i < |order| => Field(order[i], fields[order[i]]))
  }

  function NonEmpty(fields: Fields): Fields {
    map k | k in fields && fields[k] != "" :: fields[k]
  }

  /** The known keys that have a value, in the printer's own order. */
  function Known(keys: seq<string>, fields: Fields): seq<string> {
    if keys == [] then []
    else
      var front := Known(keys[..|keys| - 1], fields);
      var last := keys[|keys| - 1];
      if last in NonEmpty(fields) then front + [last] else front
  }

  /** Known keys first and in order, every other key with a value once, in any order. */
  ghost predicate PrintOrder(fields: Fields, order: seq<string>) {
    var known := Known(KNOWN_KEYS, fields);
    && NoDup(order) && Elems(order) == NonEmpty(fields).Keys
    && known <= order
  }

  lemma {:induction false} KnownSpec(keys: seq<string>, fields: Fields)
    requires NoDup(keys)
    ensures NoDup(Known(keys, fields))
    ensures forall k :: k in Known(keys, fields) <==> k in keys && k in NonEmpty(fields)
  {
    if keys != [] {
      var front, last := keys[..|keys| - 1], keys[|keys| - 1];
      KnownSpec(front, fields);
      assert keys == front + [last];
    }
  }

  lemma {:induction false} KnownKeepOrder(keys: seq<string>, fields: Fields)
    requires NoDup(keys)
    ensures Sublist(Known(keys, fields), keys)
  {
    if keys != [] {
      var front, last := keys[..|keys| - 1], keys[|keys| - 1];
      assert keys == front + [last];
      KnownKeepOrder(front, fields);
      KnownSpec(front, fields);
      KeepsOrder(Known(front, fields), front, last);
    }
  }

  lemma PartsSnoc(order: seq<string>, key: string, fields: Fields)
    requires (forall k :: k in order ==> k in fields) && key in fields
    ensures forall k :: k in order + [key] ==> k in fields
    ensures Parts(order + [key], fields) == Parts(order, fields) + [Field(key, fields[key])]
  {
  }

  method FormatKnown(keys: seq<string>, fields: Fields) returns (parts: seq<string>, seen: set<string>)
    requires NoDup(keys)
    ensures var known := Known(keys, fields);
      && NoDup(known) && (forall k :: k in known <==> k in keys && k in NonEmpty(fields))
      && seen == Elems(known) && parts == Parts(known, fields)
  {
    parts, seen := [], {};
    KnownSpec(keys, fields);
    ghost var known := [];
    for i := 0 to |keys|
      invariant known == Known(keys[..i], fields) && seen == Elems(known)
      invariant forall k :: k in known ==> k in fields
      invariant parts == Parts(known, fields)
    {
      var key := keys[i];
      assert keys[..i + 1][..i] == keys[..i];
      if key in fields && fields[key] != "" {
        PartsSnoc(known, key, fields);
        parts := parts + [Field(key, fields[key])];
        seen := seen + {key};
        known := known + [key];
      }
    }
    assert keys[..|keys|] == keys;
  }

  lemma OrderSnoc(known: seq<string>, order: seq<string>, key: string)
    requires NoDup(order) && known <= order && key !in order
    ensures NoDup(order + [key]) && known <= order + [key] && Elems(order + [key]) == Elems(order) + {key}
  {
  }

  /** The line prints the fields in some order the printer may take. */
  ghost predicate Printed(fields: Fields, line: string) {
    exists order ::
      PrintOrder(fields, order) && (forall k :: k in order ==> k in fields) && line == Join(Parts(order, fields), " ")
  }

  method FormatKVLine(fields: Fields) returns (line: string)
    ensures Printed(fields, line)
  {
    var parts, seen := FormatKnown(KNOWN_KEYS, fields);
    ghost var known := Known(KNOWN_KEYS, fields);
    ghost var order := known;
    var left := fields.Keys;
    while left != {}
      invariant left <= fields.Keys
      invariant NoDup(order) && known <= order
      invariant forall k :: k in order <==> k in seen || (k in NonEmpty(fields) && k !in left)
      invariant forall k :: k in order ==> k in fields
      invariant parts == Parts(order, fields)
      decreases left
    {
      var key :| key in left;
      if fields[key] != "" && key !in seen {
        assert key !in order;
        PartsSnoc(order, key, fields);
        OrderSnoc(known, order, key);
        parts := parts + [Field(key, fields[key])];
        order := order + [key];
      }
      left := left - {key};
    }
    line := Join(parts, " ");
    assert PrintOrder(fields, order);
  }

  /* ---- parsing ---- */

  datatype Read = Read(value: string, rest: string)

  /** The text after an opening quote, read up to the closing one; a backslash takes the next character as it is. */
  function ReadQuoted(s: string, escaped: bool): Read {
    if s == "" then Read("", "")
    else if escaped then
      var r := ReadQuoted(s[1..], false);
      Read([s[0]] + r.value, r.rest)
    else if s[0] == '\\' then ReadQuoted(s[1..], true)
    else if s[0] == '"' then Read("", TrimSpace(s[1..]))
    else
      var r := ReadQuoted(s[1..], false);
      Read([s[0]] + r.value, r.rest)
  }

  function ReadValue(line: string): Read {
    if line == "" then Read("", "")
    else if line[0] == '"' then ReadQuoted(line[1..], false)
    else
      var space := IndexOf(line, ' ');
      if space < |line| then Read(line[..space], line[space + 1..]) else Read(line, "")
  }

  lemma {:induction false} ReadQuotedShrinks(s: string, escaped: bool)
    ensures |ReadQuoted(s, escaped).rest| <= |s| && |ReadQuoted(s, escaped).value| <= |s|
  {
    if s != "" {
      TrimSpaceTrims(s[1..]);
      ReadQuotedShrinks(s[1..], true);
      ReadQuotedShrinks(s[1..], false);
    }
  }

  lemma ReadValueShrinks(line: string)
    ensures |TrimSpace(ReadValue(line).rest)| <= |ReadValue(line).rest| <= |line|
  {
    if line != "" {
      ReadQuotedShrinks(line[1..], false);
    }
    TrimSpaceTrims(ReadValue(line).rest);
  }

  function ParseFields(line: string, fields: Fields): Fields
    decreases |line|
  {
    var eq := IndexOf(line, '=');
    if eq == 0 || eq == |line| then fields
    else
      var r := ReadValue(line[eq + 1..]);
      ReadValueShrinks(line[eq + 1..]);
      ParseFields(TrimSpace(r.rest), fields[line[..eq] := r.value])
  }

  datatype Entry = Entry(raw: string, fields: Fields)

  predicate HasPrefix(s: string, prefix: string) {
    prefix <= s
  }

  /** `json` stands for the JSON decoder, which is not part of this model. */
  function ParseLine(raw: string, json: string -> Option<Fields>): Entry {
    var line := TrimSpace(raw);
    if line == "" then Entry(line, map[])
    else if HasPrefix(line, "{") then
      match json(line)
      case Some(fields) => Entry(line, fields)
      case None => Entry(line, ParseFields(line, map[]))
    else if HasPrefix(line, "| ") then Entry(line, map["stream" := "stdout", "msg" := line[2..]])
    else if HasPrefix(line, "! ") then Entry(line, map["stream" := "stderr", "msg" := line[2..]])
    else Entry(line, ParseFields(line, map[]))
  }

  /** A line the worker wrote: everything after the mark is the message, of the one stream or of the other. */
  lemma StreamLines(before: string, msg: string, after: string, json: string -> Option<Fields>)
    requires Blank(before) && Blank(after) && msg != "" && !IsSpace(msg[|msg| - 1])
    ensures ParseLine(before + ("| " + msg) + after, json) == Entry("| " + msg, map["stream" := "stdout", "msg" := msg])
    ensures ParseLine(before + ("! " + msg) + after, json) == Entry("! " + msg, map["stream" := "stderr", "msg" := msg])
  {
    TrimsPadding(before, "| " + msg, after);
    TrimsPadding(before, "! " + msg, after);
  }

  method ReadKVValue(line: string) returns (value: string, rest: string)
    ensures Read(value, rest) == ReadValue(line)
  {
    if line == "" {
      return "", "";
    }
    if line[0] == '"' {
      var b := "";
      var escaped := false;
      var i := 1;
      while i < |line|
        invariant 1 <= i <= |line|
        invariant var r := ReadQuoted(line[i..], escaped);
          ReadQuoted(line[1..], false) == Read(b + r.value, r.rest)
      {
        var ch := line[i];
        assert line[i..][1..] == line[i + 1..];
        ghost var r := ReadQuoted(line[i + 1..], false);
        if escaped {
          assert b + ([ch] + r.value) == b + [ch] + r.value;
          b := b + [ch];
          escaped := false;
        } else if ch == '\\' {
          escaped := true;
        } else if ch == '"' {
          assert b + "" == b;
          return b, TrimSpace(line[i + 1..]);
        } else {
          assert b + ([ch] + r.value) == b + [ch] + r.value;
          b := b + [ch];
        }
        i := i + 1;
      }
      assert b + "" == b;
      return b, "";
    }
    var space := IndexOf(line, ' ');
    if space < |line| {
      return line[..space], line[space + 1..];
    }
    return line, "";
  }

  method ParseKVLine(text: string) returns (fields: Fields)
    ensures fields == ParseFields(text, map[])
  {
    fields := map[];
    var line := text;
    while |line| > 0
      invariant ParseFields(text, map[]) == ParseFields(line, fields)
      decreases |line|
    {
      var eq := IndexOf(line, '=');
      if eq == 0 || eq == |line| {
        break;
      }
      var key := line[..eq];
      ReadValueShrinks(line[eq + 1..]);
      line := line[eq + 1..];
      var value, rest := ReadKVValue(line);
      fields := fields[key := value];
      line := TrimSpace(rest);
    }
  }
}
