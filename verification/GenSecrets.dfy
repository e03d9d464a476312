/**
 Filling deploy/.env (scripts/gen_secrets.py): blank entries of the known keys are filled where
 they stand, known keys that no line mentions are appended, and everything else is left alone.
 */
module GenSecrets {
  import opened Common

  type Line = string

  const KEYS: seq<string> := [
    "WEB_SECRET_KEY", "ADMIN_SECRET_KEY", "EVENT_SALT_SEED",
    "ADMIN_TOTP_KEY", "METABASE_EMBED_SECRET", "GRAFANA_PASSWORD"]

  // ---------------------------------------------------------------- text and lines

  /** What str.splitlines breaks at; text mode has already turned CR and CR LF into LF. */
  predicate IsBreak(c: char) {
    || c == '\n' || c == '\r' || c == '\U{0b}' || c == '\U{0c}' || c == '\U{1c}' || c == '\U{1d}' || c == '\U{1e}'
    || c == '\U{85}' || c == '\U{2028}' || c == '\U{2029}'
  }

  /** What str.strip removes. */
  predicate IsSpace(c: char) {
    || IsBreak(c) || c == ' ' || c == '\t' || c == '\U{1f}' || c == '\U{a0}' || c == '\U{1680}'
    || '\U{2000}' <= c <= '\U{200a}' || c == '\U{202f}' || c == '\U{205f}' || c == '\U{3000}'
  }

  /** Reading in text mode: universal newlines. */
  function ReadText(raw: string): string {
    if raw == "" then ""
    else if raw[0] == '\r' then "\n" + ReadText(if |raw| > 1 && raw[1] == '\n' then raw[2..] else raw[1..])
    else [raw[0]] + ReadText(raw[1..])
  }

  function FirstBreak(text: string): (k: nat)
    ensures k <= |text|
    ensures forall j :: 0 <= j < k ==> !IsBreak(text[j])
    ensures k < |text| ==> IsBreak(text[k])
  {
    if text == "" || IsBreak(text[0]) then 0 else 1 + FirstBreak(text[1..])
  }

  /** str.splitlines: a final break does not start another line. */
  function SplitLines(text: string): seq<Line>
    decreases |text|
  {
    if text == "" then []
    else
      var k := FirstBreak(text);
      if k == |text| then [text] else [text[..k]] + SplitLines(text[k + 1..])
  }

  /** "\n".join(lines) */
  function Join(lines: seq<Line>): string {
    if lines == [] then "" else if |lines| == 1 then lines[0] else lines[0] + "\n" + Join(lines[1..])
  }

  function Render(lines: seq<Line>): string {
    Join(lines) + "\n"
  }

  predicate Unbroken(line: Line) {
    forall j :: 0 <= j < |line| ==> !IsBreak(line[j])
  }

  predicate AllUnbroken(lines: seq<Line>) {
    forall i :: 0 <= i < |lines| ==> Unbroken(lines[i])
  }

  lemma {:induction false} SplitLinesUnbroken(text: string)
    ensures AllUnbroken(SplitLines(text))
    decreases |text|
  {
    if text != "" {
      var k := FirstBreak(text);
      if k < |text| { SplitLinesUnbroken(text[k + 1..]); }
    }
  }

  lemma {:induction false} FirstBreakAfter(line: Line, rest: string)
    requires Unbroken(line)
    ensures FirstBreak(line + "\n" + rest) == |line|
  {
    var text := line + "\n" + rest;
    assert text[|line|] == '\n';
    assert forall j :: 0 <= j < |line| ==> text[j] == line[j];
  }

  lemma {:induction false} SplitOff(line: Line, rest: string)
    requires Unbroken(line)
    ensures SplitLines(line + "\n" + rest) == [line] + SplitLines(rest)
  {
    var text := line + "\n" + rest;
    FirstBreakAfter(line, rest);
    assert text[..|line|] == line && text[|line| + 1..] == rest;
  }

  /** Writing lines and reading them back gives the same lines. */
  lemma {:induction false} LinesRoundTrip(lines: seq<Line>)
    requires lines != [] && AllUnbroken(lines)
    ensures SplitLines(Render(lines)) == lines
    decreases |lines|
  {
    if |lines| == 1 {
      SplitOff(lines[0], "");
      assert Render(lines) == lines[0] + "\n" + "";
    } else {
      SplitOff(lines[0], Render(lines[1..]));
      assert Render(lines) == lines[0] + "\n" + Render(lines[1..]);
      LinesRoundTrip(lines[1..]);
    }
  }

  predicate NoCarriageReturn(text: string) {
    forall j :: 0 <= j < |text| ==> text[j] != '\r'
  }

  lemma {:induction false} ReadsBackAsIs(text: string)
    requires NoCarriageReturn(text)
    ensures ReadText(text) == text
  {
    if text != "" {
      assert text[0] != '\r';
      ReadsBackAsIs(text[1..]);
    }
  }

  lemma {:induction false} RenderHasNoCarriageReturn(lines: seq<Line>)
    requires AllUnbroken(lines)
    ensures NoCarriageReturn(Render(lines))
  {
    if |lines| > 1 {
      RenderHasNoCarriageReturn(lines[1..]);
      assert Render(lines) == lines[0] + "\n" + Render(lines[1..]);
    }
  }

  // ---------------------------------------------------------------- one line

  function StripLeft(s: string): string {
    if s == "" || !IsSpace(s[0]) then s else StripLeft(s[1..])
  }

  function StripRight(s: string): string {
    if s == "" || !IsSpace(s[|s| - 1]) then s else StripRight(s[..|s| - 1])
  }

  /** str.strip */
  function Strip(s: string): string {
    StripRight(StripLeft(s))
  }

  lemma {:induction false} StripLeftShape(s: string)
    ensures var r := StripLeft(s);
      |r| <= |s| && r == s[|s| - |r|..] && (r != "" ==> !IsSpace(r[0]))
  {
    if s != "" && IsSpace(s[0]) { StripLeftShape(s[1..]); }
  }

  lemma {:induction false} StripRightShape(s: string)
    ensures var r := StripRight(s);
      |r| <= |s| && r == s[..|r|] && (r != "" ==> !IsSpace(r[|r| - 1]))
  {
    if s != "" && IsSpace(s[|s| - 1]) { StripRightShape(s[..|s| - 1]); }
  }

  lemma {:induction false} StripTwice(s: string)
    ensures Strip(Strip(s)) == Strip(s)
  {
    var left := StripLeft(s);
    var both := StripRight(left);
    StripLeftShape(s);
    StripRightShape(left);
    if both != "" { assert both[0] == left[0]; }
  }

  /** strip returns a piece of what it is given. */
  lemma {:induction false} StripIsPiece(s: string) returns (at: nat)
    ensures at + |Strip(s)| <= |s| && Strip(s) == s[at..at + |Strip(s)|]
  {
    var left := StripLeft(s);
    StripLeftShape(s);
    StripRightShape(left);
    at := |s| - |left|;
  }

  /** str.partition("="): the length of the text before the first '=', or of the whole line. */
  function FirstEquals(line: Line): (k: nat)
    ensures k <= |line|
  {
    if line == "" || line[0] == '=' then 0 else 1 + FirstEquals(line[1..])
  }

  lemma {:induction false} NoEqualsBefore(line: Line)
    ensures forall j :: 0 <= j < FirstEquals(line) ==> line[j] != '='
  {
    if line != "" && line[0] != '=' { NoEqualsBefore(line[1..]); }
  }

  predicate HasEquals(line: Line) {
    FirstEquals(line) < |line|
  }

  function KeyOf(line: Line): string {
    Strip(line[..FirstEquals(line)])
  }

  function ValueOf(line: Line): string
    requires HasEquals(line)
  {
    line[FirstEquals(line) + 1..]
  }

  predicate Blank(value: string) {
    Strip(value) == ""
  }

  /** A blank entry of one of the keys. */
  predicate Fillable(line: Line, keys: seq<string>) {
    HasEquals(line) && KeyOf(line) in keys && Blank(ValueOf(line))
  }

  /** An entry of one of the keys that already has a value. */
  predicate Keepable(line: Line, keys: seq<string>) {
    HasEquals(line) && KeyOf(line) in keys && !Blank(ValueOf(line))
  }

  predicate Entry(line: Line, key: string) {
    HasEquals(line) && KeyOf(line) == key
  }

  /** A usable name: no '=', no surrounding space, no line break. */
  predicate Name(key: string) {
    Unbroken(key) && Strip(key) == key && forall j :: 0 <= j < |key| ==> key[j] != '='
  }

  /** What the generators return: printable text on one line. */
  predicate Secret(value: string) {
    Unbroken(value) && !Blank(value)
  }

  lemma {:induction false} FirstEqualsAfter(key: string, value: string)
    requires forall j :: 0 <= j < |key| ==> key[j] != '='
    ensures FirstEquals(key + "=" + value) == |key|
  {
    var line := key + "=" + value;
    if key != "" {
      assert line[0] == key[0];
      assert line[1..] == key[1..] + "=" + value;
      FirstEqualsAfter(key[1..], value);
    }
  }

  /** A written entry reads back as its key and its value. */
  lemma {:induction false} EntryReadsBack(key: string, value: string)
    requires Name(key)
    ensures var line := key + "=" + value;
      && Entry(line, key) && ValueOf(line) == value
      && (Unbroken(value) ==> Unbroken(line))
  {
    FirstEqualsAfter(key, value);
    var line := key + "=" + value;
    assert line[..|key|] == key && line[|key| + 1..] == value;
  }

  lemma {:induction false} KeyIsAName(line: Line)
    requires Unbroken(line)
    ensures Name(KeyOf(line))
  {
    var before := line[..FirstEquals(line)];
    StripTwice(before);
    NoEqualsBefore(line);
    var at := StripIsPiece(before);
    forall j | 0 <= j < |KeyOf(line)|
      ensures KeyOf(line)[j] == line[at + j] && at + j < FirstEquals(line)
    {
      assert before[at + j] == line[at + j];
    }
  }

  // ---------------------------------------------------------------- one run

  /** `value` is what the key's generator returns for this line. */
  function Filled(line: Line, keys: seq<string>, value: string): Line {
    if Fillable(line, keys) then KeyOf(line) + "=" + value else line
  }

  /** `gen(i)` is the secret drawn for the line that ends up at index i. */
  function FillAll(lines: seq<Line>, keys: seq<string>, gen: nat -> string): (out: seq<Line>)
    ensures |out| == |lines|
    ensures forall i :: 0 <= i < |lines| ==> out[i] == Filled(lines[i], keys, gen(i))
  {
    seq(|lines|, i requires 0 <= i < |lines| => Filled(lines[i], keys, gen(i)))
  }

  /** Some line has this text before its first '=', or is nothing but it. */
  predicate Mentioned(lines: seq<Line>, key: string) {
    exists i :: 0 <= i < |lines| && KeyOf(lines[i]) == key
  }

  /** The keys to append, in the order of the generators. */
  function Missing(lines: seq<Line>, keys: seq<string>): (missing: seq<string>)
    ensures forall k :: k in missing <==> k in keys && !Mentioned(lines, k)
  {
    if keys == [] then []
    else (if Mentioned(lines, keys[0]) then [] else [keys[0]]) + Missing(lines, keys[1..])
  }

  function NewEntries(keys: seq<string>, gen: nat -> string, at: nat): (entries: seq<Line>)
    ensures |entries| == |keys|
    ensures forall j :: 0 <= j < |keys| ==> entries[j] == keys[j] + "=" + gen(at + j)
  {
    seq(|keys|, j requires 0 <= j < |keys| => keys[j] + "=" + gen(at + j))
  }

  function Update(lines: seq<Line>, keys: seq<string>, gen: nat -> string): seq<Line> {
    FillAll(lines, keys, gen) + NewEntries(Missing(lines, keys), gen, |lines|)
  }

  function FilledKeys(lines: seq<Line>, keys: seq<string>): seq<string> {
    if lines == [] then []
    else FilledKeys(lines[..|lines| - 1], keys) + if Fillable(lines[|lines| - 1], keys) then [KeyOf(lines[|lines| - 1])] else []
  }

  /** Entries of known keys that already have a value. */
  function Kept(lines: seq<Line>, keys: seq<string>): nat {
    if lines == [] then 0
    else
      var last := lines[|lines| - 1];
      Kept(lines[..|lines| - 1], keys) + if Keepable(last, keys) then 1 else 0
  }

  /** The file after a run; None is no file. */
  function AfterRun(content: Option<string>, keys: seq<string>, gen: nat -> string): Option<string> {
    var lines := LinesOf(content);
    if FilledKeys(lines, keys) == [] && Missing(lines, keys) == [] then content else Some(Render(Update(lines, keys, gen)))
  }

  function LinesOf(content: Option<string>): seq<Line> {
    SplitLines(if content.Some? then ReadText(content.value) else "")
  }

  /** The loop over the lines: blank entries are filled in place. */
  method FillBlanks(was: seq<Line>, keys: seq<string>, gen: nat -> string)
    returns (lines: seq<Line>, filled: seq<string>, kept: nat)
    ensures lines == FillAll(was, keys, gen) && filled == FilledKeys(was, keys) && kept == Kept(was, keys)
  {
    lines, filled, kept := was, [], 0;
    ghost var goal := FillAll(was, keys, gen);
    for i := 0 to |lines|
      invariant |lines| == |was| == |goal| && lines == goal[..i] + was[i..]
      invariant filled == FilledKeys(was[..i], keys) && kept == Kept(was[..i], keys)
    {
      var line := lines[i];
      var key := KeyOf(line);
      OneMoreLine(was, keys, i);
      OneMoreDone(was, goal, i);
      if HasEquals(line) && key in keys {
        if Strip(ValueOf(line)) != "" {
          kept := kept + 1;
        } else {
          lines := lines[i := key + "=" + gen(i)];
          filled := filled + [key];
        }
      }
    }
    assert was[..|was|] == was && goal[..|was|] + was[|was|..] == goal;
  }

  lemma {:induction false} OneMoreDone(was: seq<Line>, goal: seq<Line>, i: nat)
    requires |goal| == |was| && i < |was|
    ensures (goal[..i] + was[i..])[i] == was[i]
    ensures (goal[..i] + was[i..])[i := goal[i]] == goal[..i + 1] + was[i + 1..]
    ensures goal[i] == was[i] ==> goal[..i] + was[i..] == goal[..i + 1] + was[i + 1..]
  {}

  lemma {:induction false} OneMoreLine(lines: seq<Line>, keys: seq<string>, i: nat)
    requires i < |lines|
    ensures FilledKeys(lines[..i + 1], keys) == FilledKeys(lines[..i], keys) + if Fillable(lines[i], keys) then [KeyOf(lines[i])] else []
    ensures Kept(lines[..i + 1], keys) == Kept(lines[..i], keys) + if Keepable(lines[i], keys) then 1 else 0
  {
    assert lines[..i + 1][..i] == lines[..i] && lines[..i + 1][i] == lines[i];
  }

  class EnvFile {
    var content: Option<string>

    constructor (content: Option<string>)
      ensures this.content == content
    {
      this.content := content;
    }

    /** The script: it writes only when something was filled or added. */
    method Run(gen: nat -> string) returns (kept: nat, generated: seq<string>)
      modifies this
      ensures content == AfterRun(old(content), KEYS, gen)
      ensures kept == Kept(LinesOf(old(content)), KEYS)
      ensures generated == FilledKeys(LinesOf(old(content)), KEYS) + Missing(LinesOf(old(content)), KEYS)
    {
      var text := if content.Some? then ReadText(content.value) else "";
      var was := SplitLines(text);
      SplitLinesUnbroken(text);
      var lines, filled, count := FillBlanks(was, KEYS, gen);
      FillingMentionsTheSame(was, KEYS, gen);
      MissingAgrees(lines, was, KEYS);
      var added := Missing(lines, KEYS);
      if filled != [] || added != [] {
        lines := lines + NewEntries(added, gen, |lines|);
        content := Some(Render(lines));
      }
      kept, generated := count, filled + added;
    }
  }

  lemma {:induction false} FilledKeepsKey(line: Line, keys: seq<string>, value: string)
    requires Unbroken(line)
    ensures KeyOf(Filled(line, keys, value)) == KeyOf(line) && (HasEquals(Filled(line, keys, value)) <==> HasEquals(line))
    ensures Fillable(line, keys) ==> ValueOf(Filled(line, keys, value)) == value
  {
    if Fillable(line, keys) {
      KeyIsAName(line);
      EntryReadsBack(KeyOf(line), value);
    }
  }

  lemma {:induction false} FillingMentionsTheSame(lines: seq<Line>, keys: seq<string>, gen: nat -> string)
    requires AllUnbroken(lines)
    ensures forall key :: Mentioned(FillAll(lines, keys, gen), key) <==> Mentioned(lines, key)
  {
    forall i | 0 <= i < |lines|
      ensures KeyOf(FillAll(lines, keys, gen)[i]) == KeyOf(lines[i])
    {
      FilledKeepsKey(lines[i], keys, gen(i));
    }
    forall key
      ensures Mentioned(FillAll(lines, keys, gen), key) <==> Mentioned(lines, key)
    {
      if Mentioned(lines, key) {
        var i :| 0 <= i < |lines| && KeyOf(lines[i]) == key;
        assert KeyOf(FillAll(lines, keys, gen)[i]) == key;
      }
    }
  }

  lemma {:induction false} MissingAgrees(a: seq<Line>, b: seq<Line>, keys: seq<string>)
    requires forall key :: Mentioned(a, key) <==> Mentioned(b, key)
    ensures Missing(a, keys) == Missing(b, keys)
  {
    if keys != [] { MissingAgrees(a, b, keys[1..]); }
  }

  // ---------------------------------------------------------------- what a run guarantees

  /** The index of the last entry for the key, or the number of lines: the file is read last-wins. */
  function LastEntry(lines: seq<Line>, key: string): (k: nat)
    ensures k <= |lines|
    ensures k < |lines| ==> Entry(lines[k], key) && forall j :: k < j < |lines| ==> !Entry(lines[j], key)
    ensures k == |lines| ==> forall j :: 0 <= j < |lines| ==> !Entry(lines[j], key)
  {
    LastEntryFrom(lines, key, |lines|)
  }

  function LastEntryFrom(lines: seq<Line>, key: string, n: nat): (k: nat)
    requires n <= |lines| && forall j :: n <= j < |lines| ==> !Entry(lines[j], key)
    ensures k <= |lines|
    ensures k < |lines| ==> Entry(lines[k], key) && forall j :: k < j < |lines| ==> !Entry(lines[j], key)
    ensures k == |lines| ==> forall j :: 0 <= j < |lines| ==> !Entry(lines[j], key)
  {
    if n == 0 then |lines| else if Entry(lines[n - 1], key) then n - 1 else LastEntryFrom(lines, key, n - 1)
  }

  /** The value the key has for a reader of the file. */
  function Value(lines: seq<Line>, key: string): Option<string> {
    var k := LastEntry(lines, key);
    if k < |lines| then Some(ValueOf(lines[k])) else None
  }

  predicate IsSet(lines: seq<Line>, key: string) {
    Value(lines, key).Some? && !Blank(Value(lines, key).value)
  }

  lemma {:induction false} LastEntryIs(lines: seq<Line>, key: string, k: nat)
    requires k < |lines| && Entry(lines[k], key) && forall j :: k < j < |lines| ==> !Entry(lines[j], key)
    ensures LastEntry(lines, key) == k
  {}

  lemma {:induction false} PlainIsName(key: string)
    requires key != "" && forall j :: 0 <= j < |key| ==> 'A' <= key[j] <= 'Z' || key[j] == '_'
    ensures Name(key)
  {
    assert !IsSpace(key[0]) && !IsSpace(key[|key| - 1]);
  }

  predicate AllNames(keys: seq<string>) {
    forall k :: 0 <= k < |keys| ==> Name(keys[k])
  }

  lemma {:induction false} MemberIsName(keys: seq<string>, key: string)
    requires AllNames(keys) && key in keys
    ensures Name(key)
  {
    var k :| 0 <= k < |keys| && keys[k] == key;
  }

  lemma {:induction false} WebKeysAreNames()
    ensures Name("WEB_SECRET_KEY") && Name("ADMIN_SECRET_KEY") && Name("EVENT_SALT_SEED")
  {
    PlainIsName("WEB_SECRET_KEY");
    PlainIsName("ADMIN_SECRET_KEY");
    PlainIsName("EVENT_SALT_SEED");
  }

  lemma {:induction false} PanelKeysAreNames()
    ensures Name("ADMIN_TOTP_KEY") && Name("GRAFANA_PASSWORD")
  {
    PlainIsName("ADMIN_TOTP_KEY");
    PlainIsName("GRAFANA_PASSWORD");
  }

  lemma {:induction false} MetabaseKeyIsAName()
    ensures Name("METABASE_EMBED_SECRET")
  {
    PlainIsName("METABASE_EMBED_SECRET");
  }

  lemma {:induction false} KnownKeysAreNames()
    ensures AllNames(KEYS)
  {
    WebKeysAreNames();
    PanelKeysAreNames();
    MetabaseKeyIsAName();
  }

  ghost predicate Secrets(gen: nat -> string) {
    forall i: nat :: Secret(gen(i))
  }

  /** Lines that are not blank entries of known keys stay as they are, where they are; no line moves. */
  lemma {:induction false} UntouchedLinesStay(lines: seq<Line>, keys: seq<string>, gen: nat -> string, i: nat)
    requires AllUnbroken(lines) && Secrets(gen) && i < |lines|
    ensures i < |Update(lines, keys, gen)| && KeyOf(Update(lines, keys, gen)[i]) == KeyOf(lines[i])
    ensures HasEquals(Update(lines, keys, gen)[i]) <==> HasEquals(lines[i])
    ensures if Fillable(lines[i], keys) then ValueOf(Update(lines, keys, gen)[i]) == gen(i) && !Blank(gen(i))
            else Update(lines, keys, gen)[i] == lines[i]
  {
    FilledKeepsKey(lines[i], keys, gen(i));
    assert Secret(gen(i));
  }

  lemma {:induction false} NewEntriesRead(lines: seq<Line>, keys: seq<string>, gen: nat -> string, j: nat)
    requires Secrets(gen) && AllNames(keys) && |lines| <= j < |Update(lines, keys, gen)|
    ensures var key := Missing(lines, keys)[j - |lines|];
      && key in keys && !Mentioned(lines, key)
      && Entry(Update(lines, keys, gen)[j], key) && ValueOf(Update(lines, keys, gen)[j]) == gen(j)
      && Unbroken(Update(lines, keys, gen)[j]) && !Blank(gen(j))
  {
    var key := Missing(lines, keys)[j - |lines|];
    assert key in Missing(lines, keys);
    MemberIsName(keys, key);
    assert Secret(gen(j));
    EntryReadsBack(key, gen(j));
    assert Update(lines, keys, gen)[j] == key + "=" + gen(j);
  }

  lemma {:induction false} UpdateUnbroken(lines: seq<Line>, keys: seq<string>, gen: nat -> string)
    requires AllUnbroken(lines) && Secrets(gen) && AllNames(keys)
    ensures AllUnbroken(Update(lines, keys, gen))
  {
    forall i | 0 <= i < |Update(lines, keys, gen)|
      ensures Unbroken(Update(lines, keys, gen)[i])
    {
      if i < |lines| {
        assert Unbroken(lines[i]) && Secret(gen(i));
        KeyIsAName(lines[i]);
        EntryReadsBack(KeyOf(lines[i]), gen(i));
      } else {
        NewEntriesRead(lines, keys, gen, i);
      }
    }
  }

  /** The last entry for a mentioned key stays the last entry for it. */
  lemma {:induction false} LastEntryStays(lines: seq<Line>, keys: seq<string>, gen: nat -> string, key: string)
    requires AllUnbroken(lines) && Secrets(gen) && AllNames(keys) && LastEntry(lines, key) < |lines|
    ensures LastEntry(Update(lines, keys, gen), key) == LastEntry(lines, key)
  {
    var k, out := LastEntry(lines, key), Update(lines, keys, gen);
    UntouchedLinesStay(lines, keys, gen, k);
    forall j | k < j < |out|
      ensures !Entry(out[j], key)
    {
      if j < |lines| {
        UntouchedLinesStay(lines, keys, gen, j);
      } else {
        NewEntriesRead(lines, keys, gen, j);
        assert Mentioned(lines, key);
      }
    }
    LastEntryIs(out, key, k);
  }

  /** A key that has a value keeps it. */
  lemma {:induction false} SetKeysKeepTheirValue(lines: seq<Line>, keys: seq<string>, gen: nat -> string, key: string)
    requires AllUnbroken(lines) && Secrets(gen) && AllNames(keys) && IsSet(lines, key)
    ensures Value(Update(lines, keys, gen), key) == Value(lines, key)
  {
    LastEntryStays(lines, keys, gen, key);
    UntouchedLinesStay(lines, keys, gen, LastEntry(lines, key));
  }

  /** Nothing changes for a key the script does not know. */
  lemma {:induction false} UnknownKeysKeepTheirValue(lines: seq<Line>, keys: seq<string>, gen: nat -> string, key: string)
    requires AllUnbroken(lines) && Secrets(gen) && AllNames(keys) && key !in keys
    ensures Value(Update(lines, keys, gen), key) == Value(lines, key)
  {
    var out := Update(lines, keys, gen);
    if LastEntry(lines, key) < |lines| {
      LastEntryStays(lines, keys, gen, key);
      UntouchedLinesStay(lines, keys, gen, LastEntry(lines, key));
    } else {
      forall j | 0 <= j < |out|
        ensures !Entry(out[j], key)
      {
        if j < |lines| { UntouchedLinesStay(lines, keys, gen, j); } else { NewEntriesRead(lines, keys, gen, j); }
      }
    }
  }

  /**
   Exactly when a known key has a value after a run: an entry for it existed, or no line
   mentioned it. A bare `KEY` line with no '=' counts as a mention, so it suppresses the key.
   */
  lemma {:induction false} SetAfterRunIff(lines: seq<Line>, keys: seq<string>, gen: nat -> string, key: string)
    requires AllUnbroken(lines) && Secrets(gen) && AllNames(keys) && key in keys
    ensures IsSet(Update(lines, keys, gen), key) <==>
      (exists i :: 0 <= i < |lines| && Entry(lines[i], key)) || !Mentioned(lines, key)
  {
    var k := LastEntry(lines, key);
    if k < |lines| {
      EntryIsSet(lines, keys, gen, key);
    } else if Mentioned(lines, key) {
      MentionSuppresses(lines, keys, gen, key);
    } else {
      AppendedIsSet(lines, keys, gen, key);
    }
  }

  lemma {:induction false} EntryIsSet(lines: seq<Line>, keys: seq<string>, gen: nat -> string, key: string)
    requires AllUnbroken(lines) && Secrets(gen) && AllNames(keys) && key in keys && LastEntry(lines, key) < |lines|
    ensures IsSet(Update(lines, keys, gen), key)
  {
    LastEntryStays(lines, keys, gen, key);
    UntouchedLinesStay(lines, keys, gen, LastEntry(lines, key));
  }

  lemma {:induction false} MentionSuppresses(lines: seq<Line>, keys: seq<string>, gen: nat -> string, key: string)
    requires AllUnbroken(lines) && Secrets(gen) && AllNames(keys) && Mentioned(lines, key)
    requires forall i :: 0 <= i < |lines| ==> !Entry(lines[i], key)
    ensures Value(Update(lines, keys, gen), key) == None
  {
    var out := Update(lines, keys, gen);
    forall j | 0 <= j < |out|
      ensures !Entry(out[j], key)
    {
      if j < |lines| { UntouchedLinesStay(lines, keys, gen, j); } else { NewEntriesRead(lines, keys, gen, j); }
    }
  }

  lemma {:induction false} AppendedIsSet(lines: seq<Line>, keys: seq<string>, gen: nat -> string, key: string)
    requires AllUnbroken(lines) && Secrets(gen) && AllNames(keys) && key in keys && !Mentioned(lines, key)
    ensures IsSet(Update(lines, keys, gen), key)
  {
    var out, missing := Update(lines, keys, gen), Missing(lines, keys);
    assert key in missing;
    var j :| 0 <= j < |missing| && missing[j] == key;
    NewEntriesRead(lines, keys, gen, |lines| + j);
    var k := LastEntry(out, key);
    assert |lines| + j <= k < |out|;
    NewEntriesRead(lines, keys, gen, k);
  }

  // ---------------------------------------------------------------- no new duplicates

  /** Lines that mention the key. */
  function Mentions(lines: seq<Line>, key: string): nat {
    if lines == [] then 0
    else Mentions(lines[..|lines| - 1], key) + if KeyOf(lines[|lines| - 1]) == key then 1 else 0
  }

  lemma {:induction false} MentionsAppend(a: seq<Line>, b: seq<Line>, key: string)
    ensures Mentions(a + b, key) == Mentions(a, key) + Mentions(b, key)
    decreases |b|
  {
    if b == [] {
      assert a + b == a;
    } else {
      assert (a + b)[..|a + b| - 1] == a + b[..|b| - 1];
      MentionsAppend(a, b[..|b| - 1], key);
    }
  }

  lemma {:induction false} SameKeysSameMentions(a: seq<Line>, b: seq<Line>, key: string)
    requires |a| == |b| && forall i :: 0 <= i < |a| ==> KeyOf(a[i]) == KeyOf(b[i])
    ensures Mentions(a, key) == Mentions(b, key)
    decreases |a|
  {
    if a != [] { SameKeysSameMentions(a[..|a| - 1], b[..|b| - 1], key); }
  }

  lemma {:induction false} MentionedLast(front: seq<Line>, last: Line, key: string)
    ensures Mentioned(front + [last], key) <==> Mentioned(front, key) || KeyOf(last) == key
  {
    var lines := front + [last];
    assert lines[|front|] == last && forall i :: 0 <= i < |front| ==> lines[i] == front[i];
    if Mentioned(front, key) {
      var i :| 0 <= i < |front| && KeyOf(front[i]) == key;
      assert KeyOf(lines[i]) == key;
    }
  }

  lemma {:induction false} MentionedIsCounted(lines: seq<Line>, key: string)
    ensures Mentions(lines, key) > 0 <==> Mentioned(lines, key)
    decreases |lines|
  {
    if lines != [] {
      var n := |lines| - 1;
      MentionedIsCounted(lines[..n], key);
      MentionedLast(lines[..n], lines[n], key);
      assert lines == lines[..n] + [lines[n]];
    }
  }

  predicate Distinct(keys: seq<string>) {
    forall j, k :: 0 <= j < k < |keys| ==> keys[j] != keys[k]
  }

  lemma {:induction false} MissingDistinct(lines: seq<Line>, keys: seq<string>)
    requires Distinct(keys)
    ensures Distinct(Missing(lines, keys))
  {
    if keys != [] {
      var rest := Missing(lines, keys[1..]);
      MissingDistinct(lines, keys[1..]);
      assert forall k :: 0 <= k < |rest| ==> rest[k] in rest && rest[k] in keys[1..];
    }
  }

  lemma {:induction false} MentionsSnoc(front: seq<Line>, line: Line, key: string)
    ensures Mentions(front + [line], key) == Mentions(front, key) + if KeyOf(line) == key then 1 else 0
  {
    assert (front + [line])[..|front|] == front;
  }

  lemma {:induction false} NewEntriesSnoc(missing: seq<string>, gen: nat -> string, at: nat)
    requires missing != []
    ensures var n := |missing| - 1;
      NewEntries(missing, gen, at) == NewEntries(missing[..n], gen, at) + [missing[n] + "=" + gen(at + n)]
  {}

  lemma {:induction false} MentionsNewEntry(missing: seq<string>, gen: nat -> string, at: nat, key: string)
    requires missing != [] && Name(missing[|missing| - 1])
    ensures var n := |missing| - 1;
      Mentions(NewEntries(missing, gen, at), key)
      == Mentions(NewEntries(missing[..n], gen, at), key) + if missing[n] == key then 1 else 0
  {
    var n := |missing| - 1;
    EntryReadsBack(missing[n], gen(at + n));
    NewEntriesSnoc(missing, gen, at);
    MentionsSnoc(NewEntries(missing[..n], gen, at), missing[n] + "=" + gen(at + n), key);
  }

  lemma {:induction false} LastIsNew(keys: seq<string>, key: string)
    requires Distinct(keys) && keys != []
    ensures var n := |keys| - 1; key in keys <==> key in keys[..n] || key == keys[n]
    ensures keys[|keys| - 1] !in keys[..|keys| - 1]
  {
    assert keys == keys[..|keys| - 1] + [keys[|keys| - 1]];
  }

  lemma {:induction false} NewEntriesMention(missing: seq<string>, gen: nat -> string, at: nat, key: string)
    requires Distinct(missing) && AllNames(missing)
    ensures Mentions(NewEntries(missing, gen, at), key) == if key in missing then 1 else 0
    decreases |missing|
  {
    if missing != [] {
      var n := |missing| - 1;
      MentionsNewEntry(missing, gen, at, key);
      NewEntriesMention(missing[..n], gen, at, key);
      LastIsNew(missing, key);
    }
  }

  /** A run adds a line only for a known key that had none: never a second one. */
  lemma {:induction false} NoNewDuplicates(lines: seq<Line>, keys: seq<string>, gen: nat -> string, key: string)
    requires AllUnbroken(lines) && AllNames(keys) && Distinct(keys)
    ensures Mentions(Update(lines, keys, gen), key)
         == if key in keys && Mentions(lines, key) == 0 then 1 else Mentions(lines, key)
  {
    var missing := Missing(lines, keys);
    forall i | 0 <= i < |lines|
      ensures KeyOf(FillAll(lines, keys, gen)[i]) == KeyOf(lines[i])
    {
      FilledKeepsKey(lines[i], keys, gen(i));
    }
    SameKeysSameMentions(FillAll(lines, keys, gen), lines, key);
    MissingDistinct(lines, keys);
    forall k | 0 <= k < |missing|
      ensures Name(missing[k])
    {
      assert missing[k] in missing;
      MemberIsName(keys, missing[k]);
    }
    NewEntriesMention(missing, gen, |lines|, key);
    MentionsAppend(FillAll(lines, keys, gen), NewEntries(missing, gen, |lines|), key);
    MentionedIsCounted(lines, key);
  }

  // ---------------------------------------------------------------- the second run

  lemma {:induction false} NothingFillable(lines: seq<Line>, keys: seq<string>)
    ensures FilledKeys(lines, keys) == [] <==> forall i :: 0 <= i < |lines| ==> !Fillable(lines[i], keys)
    decreases |lines|
  {
    if lines != [] {
      var front, n := lines[..|lines| - 1], |lines| - 1;
      NothingFillable(front, keys);
      assert forall i :: 0 <= i < n ==> front[i] == lines[i];
      if !Fillable(lines[n], keys) { assert FilledKeys(front, keys) + [] == FilledKeys(front, keys); }
    }
  }

  predicate NothingToDo(lines: seq<Line>, keys: seq<string>) {
    FilledKeys(lines, keys) == [] && Missing(lines, keys) == []
  }

  lemma {:induction false} NothingToDoIsIdentity(lines: seq<Line>, keys: seq<string>, gen: nat -> string)
    requires NothingToDo(lines, keys)
    ensures Update(lines, keys, gen) == lines
  {
    NothingFillable(lines, keys);
    assert NewEntries(Missing(lines, keys), gen, |lines|) == [];
  }

  lemma {:induction false} EverythingMentioned(lines: seq<Line>, keys: seq<string>, gen: nat -> string, key: string)
    requires AllUnbroken(lines) && Secrets(gen) && AllNames(keys) && key in keys
    ensures Mentioned(Update(lines, keys, gen), key)
  {
    var out, missing := Update(lines, keys, gen), Missing(lines, keys);
    if Mentioned(lines, key) {
      var i :| 0 <= i < |lines| && KeyOf(lines[i]) == key;
      UntouchedLinesStay(lines, keys, gen, i);
      assert KeyOf(out[i]) == key;
    } else {
      assert key in missing;
      var j :| 0 <= j < |missing| && missing[j] == key;
      NewEntriesRead(lines, keys, gen, |lines| + j);
      assert KeyOf(out[|lines| + j]) == key;
    }
  }

  lemma {:induction false} NoneMissing(lines: seq<Line>, keys: seq<string>)
    requires forall key :: key in keys ==> Mentioned(lines, key)
    ensures Missing(lines, keys) == []
  {
    if keys != [] {
      assert keys[0] in keys;
      NoneMissing(lines, keys[1..]);
    }
  }

  lemma {:induction false} NoBlankLeft(lines: seq<Line>, keys: seq<string>, gen: nat -> string, i: nat)
    requires AllUnbroken(lines) && Secrets(gen) && AllNames(keys) && i < |Update(lines, keys, gen)|
    ensures !Fillable(Update(lines, keys, gen)[i], keys)
  {
    if i < |lines| { UntouchedLinesStay(lines, keys, gen, i); } else { NewEntriesRead(lines, keys, gen, i); }
  }

  lemma {:induction false} NothingLeftToDo(lines: seq<Line>, keys: seq<string>, gen: nat -> string)
    requires AllUnbroken(lines) && Secrets(gen) && AllNames(keys)
    ensures NothingToDo(Update(lines, keys, gen), keys)
  {
    var out := Update(lines, keys, gen);
    forall i | 0 <= i < |out|
      ensures !Fillable(out[i], keys)
    {
      NoBlankLeft(lines, keys, gen, i);
    }
    NothingFillable(out, keys);
    forall key | key in keys
      ensures Mentioned(out, key)
    {
      EverythingMentioned(lines, keys, gen, key);
    }
    NoneMissing(out, keys);
  }

  /** What the file says after a run, read back: exactly the updated lines. */
  lemma {:induction false} FileHoldsUpdate(content: Option<string>, keys: seq<string>, gen: nat -> string)
    requires Secrets(gen) && AllNames(keys)
    ensures LinesOf(AfterRun(content, keys, gen)) == Update(LinesOf(content), keys, gen)
    ensures AllUnbroken(LinesOf(content))
  {
    var lines := LinesOf(content);
    SplitLinesUnbroken(if content.Some? then ReadText(content.value) else "");
    if NothingToDo(lines, keys) {
      NothingToDoIsIdentity(lines, keys, gen);
    } else {
      var out := Update(lines, keys, gen);
      UpdateUnbroken(lines, keys, gen);
      assert out != [];
      LinesRoundTrip(out);
      RenderHasNoCarriageReturn(out);
      ReadsBackAsIs(Render(out));
    }
  }

  /** Running the script again, whatever it would draw, changes nothing. */
  lemma {:induction false} SecondRunChangesNothing(content: Option<string>, keys: seq<string>, gen: nat -> string, again: nat -> string)
    requires Secrets(gen) && AllNames(keys)
    ensures AfterRun(AfterRun(content, keys, gen), keys, again) == AfterRun(content, keys, gen)
  {
    FileHoldsUpdate(content, keys, gen);
    NothingLeftToDo(LinesOf(content), keys, gen);
  }

  lemma {:induction false} KnownKeysAreDistinct()
    ensures Distinct(KEYS)
  {
    assert KEYS[0][0] == 'W' && KEYS[2][0] == 'E' && KEYS[4][0] == 'M' && KEYS[5][0] == 'G';
    assert KEYS[1][..7] == "ADMIN_S" && KEYS[3][..7] == "ADMIN_T" && KEYS[1][6] == 'S' && KEYS[3][6] == 'T';
    assert KEYS[1][0] == 'A' && KEYS[3][0] == 'A';
  }

  /**
   The script on its own keys: values are kept, no key gets a second line, and a known key ends
   up with a value exactly when an entry for it existed or no line mentioned it.
   */
  lemma {:induction false} ScriptIsSafe(content: Option<string>, gen: nat -> string, key: string)
    requires Secrets(gen)
    ensures var before, after := LinesOf(content), LinesOf(AfterRun(content, KEYS, gen));
      && (IsSet(before, key) || key !in KEYS ==> Value(after, key) == Value(before, key))
      && (key in KEYS ==> (IsSet(after, key) <==>
            (exists i :: 0 <= i < |before| && Entry(before[i], key)) || !Mentioned(before, key)))
      && Mentions(after, key) == if key in KEYS && Mentions(before, key) == 0 then 1 else Mentions(before, key)
  {
    KnownKeysAreNames();
    KnownKeysAreDistinct();
    FileHoldsUpdate(content, KEYS, gen);
    NoNewDuplicates(LinesOf(content), KEYS, gen, key);
    var before := LinesOf(content);
    if IsSet(before, key) { SetKeysKeepTheirValue(before, KEYS, gen, key); }
    if key in KEYS {
      SetAfterRunIff(before, KEYS, gen, key);
    } else {
      UnknownKeysKeepTheirValue(before, KEYS, gen, key);
    }
  }

  /** Where the promise to fill any missing secret fails: a file whose one line is a bare key. */
  lemma {:induction false} BareKeyIsNeverFilled(gen: nat -> string)
    requires Secrets(gen)
    ensures !IsSet(LinesOf(AfterRun(Some("WEB_SECRET_KEY"), KEYS, gen)), "WEB_SECRET_KEY")
  {
    var key := "WEB_SECRET_KEY";
    WebKeysAreNames();
    BareLine(key);
    ScriptIsSafe(Some(key), gen, key);
  }

  /** A file that is nothing but a name reads as one line that mentions it and is no entry. */
  lemma {:induction false} BareLine(key: string)
    requires Name(key) && key != ""
    ensures LinesOf(Some(key)) == [key] && KeyOf(key) == key && !HasEquals(key)
    ensures Mentioned(LinesOf(Some(key)), key) && forall i :: 0 <= i < |LinesOf(Some(key))| ==> !Entry(LinesOf(Some(key))[i], key)
  {
    ReadsBackAsIs(key);
    NoEqualsAtAll(key);
    assert key[..|key|] == key;
    assert LinesOf(Some(key)) == [key];
    assert KeyOf(LinesOf(Some(key))[0]) == key;
  }

  lemma {:induction false} NoEqualsAtAll(line: Line)
    requires forall j :: 0 <= j < |line| ==> line[j] != '='
    ensures FirstEquals(line) == |line|
  {
    if line != "" { NoEqualsAtAll(line[1..]); }
  }
}
