/** The balanced-brace scan of parse_llm_json against printed JSON objects. */
module BraceScan {
  import opened Wrappers

  // ---------------------------------------------------------------- the scan, one character at a time

  datatype ScanState = ScanState(depth: int, inStr: bool, escape: bool)

  const OUTSIDE := ScanState(0, false, false)

  function Next(s: ScanState, ch: char): ScanState {
    if s.inStr then
      if s.escape then s.(escape := false)
      else if ch == '\\' then s.(escape := true)
      else if ch == '"' then s.(inStr := false) else s
    else if ch == '"' then s.(inStr := true)
    else if ch == '{' then s.(depth := s.depth + 1)
    else if ch == '}' then s.(depth := s.depth - 1) else s
  }

  /** The brace that closes the outermost object. */
  predicate Closes(s: ScanState, ch: char) { !s.inStr && ch == '}' && s.depth == 1 }

  /** How many characters the scan takes up to and including the closing brace. */
  function Ends(s: ScanState, t: string): (n: Option<nat>)
    ensures n.Some? ==> 0 < n.value <= |t| && t[n.value - 1] == '}'
    decreases |t|
  {
    if t == "" then None
    else if Closes(s, t[0]) then Some(1)
    else
      var rest := Ends(Next(s, t[0]), t[1..]);
      if rest.Some? then Some(rest.value + 1) else None
  }

  /** The state after text that does not close the object; None if some character in it does. */
  function Through(s: ScanState, t: string): Option<ScanState>
    decreases |t|
  {
    if t == "" then Some(s)
    else if Closes(s, t[0]) then None
    else Through(Next(s, t[0]), t[1..])
  }

  lemma {:induction false} ThroughConcat(s: ScanState, a: string, b: string)
    requires Through(s, a).Some?
    ensures Through(s, a + b) == Through(Through(s, a).value, b)
    ensures var n := Ends(Through(s, a).value, b);
            Ends(s, a + b) == if n.Some? then Some(|a| + n.value) else None
    decreases |a|
  {
    if a == "" {
      assert a + b == b;
    } else {
      assert (a + b)[1..] == a[1..] + b;
      ThroughConcat(Next(s, a[0]), a[1..], b);
    }
  }

  // ---------------------------------------------------------------- the program

  /** `cleaned.find("{")` */
  function FindOpen(t: string): (start: Option<nat>)
    ensures start.Some? ==> start.value < |t| && t[start.value] == '{' && '{' !in t[..start.value]
    ensures start.None? ==> '{' !in t
  {
    if t == "" then None
    else if t[0] == '{' then Some(0)
    else
      var rest := FindOpen(t[1..]);
      if rest.Some? then Some(rest.value + 1) else None
  }

  /** The text handed to the JSON parser. */
  function Candidate(t: string): Option<string> {
    var start := FindOpen(t);
    if start.None? then None
    else
      var n := Ends(OUTSIDE, t[start.value..]);
      if n.None? then None else Some(t[start.value..start.value + n.value])
  }

  /** Where the scan ends, before and after it looks at the i-th character. */
  predicate Looked(t: string, i: nat, s: ScanState, j: nat, s': ScanState)
    requires i <= j <= |t|
  {
    var (n, m) := (Ends(s, t[i..]), Ends(s', t[j..]));
    n == if m.Some? then Some(j - i + m.value) else None
  }

  lemma LookAt(t: string, start: nat, i: nat, s: ScanState)
    requires start <= i < |t| && Looked(t, start, OUTSIDE, i, s)
    ensures Closes(s, t[i]) ==> Ends(OUTSIDE, t[start..]) == Some(i + 1 - start)
    ensures !Closes(s, t[i]) ==> Looked(t, start, OUTSIDE, i + 1, Next(s, t[i]))
  {
    assert t[i..][0] == t[i] && t[i..][1..] == t[i + 1..];
  }

  method FirstBalancedObject(cleaned: string) returns (candidate: Option<string>)
    ensures candidate == Candidate(cleaned)
  {
    var found := FindOpen(cleaned);
    if found.None? { return None; }
    var start := found.value;
    var depth, inStr, escape := 0, false, false;
    var i := start;
    while i < |cleaned|
      invariant start <= i <= |cleaned|
      invariant Looked(cleaned, start, OUTSIDE, i, ScanState(depth, inStr, escape))
    {
      hide Ends;
      LookAt(cleaned, start, i, ScanState(depth, inStr, escape));
      var ch := cleaned[i];
      i := i + 1;
      if inStr {
        if escape {
          escape := false;
        } else if ch == '\\' {
          escape := true;
        } else if ch == '"' {
          inStr := false;
        }
        continue;
      }
      if ch == '"' {
        inStr := true;
      } else if ch == '{' {
        depth := depth + 1;
      } else if ch == '}' {
        depth := depth - 1;
        if depth == 0 { return Some(cleaned[start..i]); }
      }
    }
    candidate := None;
  }

  // ---------------------------------------------------------------- printed JSON

  /** A string is a sequence of pieces, as section 7 of RFC 8259 lays them out. */
  datatype Piece = Raw(c: char) | Escape(c: char) | Unicode(hex: string)

  predicate IsHex(c: char) { '0' <= c <= '9' || 'a' <= c <= 'f' || 'A' <= c <= 'F' }

  predicate ValidPiece(p: Piece) {
    match p
    case Raw(c) => c >= ' ' && c != '"' && c != '\\'
    case Escape(c) => c in {'"', '\\', '/', 'b', 'f', 'n', 'r', 't'}
    case Unicode(hex) => |hex| == 4 && forall i :: 0 <= i < 4 ==> IsHex(hex[i])
  }

  predicate ValidString(ps: seq<Piece>) { forall i :: 0 <= i < |ps| ==> ValidPiece(ps[i]) }

  function PrintPiece(p: Piece): string {
    match p
    case Raw(c) => [c]
    case Escape(c) => ['\\', c]
    case Unicode(hex) => ['\\', 'u'] + hex
  }

  function PrintPieces(ps: seq<Piece>): string {
    if ps == [] then "" else PrintPiece(ps[0]) + PrintPieces(ps[1..])
  }

  function PrintString(ps: seq<Piece>): string { ['"'] + PrintPieces(ps) + ['"'] }

  /** A value and the white space its printer put around its parts; `Literal` is a number, true, false or null. */
  datatype Json =
    | Literal(text: string)
    | Text(pieces: seq<Piece>)
    | Arr(pad: string, items: Items)
    | Obj(pad: string, members: Members)

  datatype Items = NoItems | Item(before: string, value: Json, after: string, rest: Items)

  datatype Members = NoMembers
    | Member(before: string, key: seq<Piece>, colon: (string, string), value: Json, after: string, rest: Members)

  predicate IsSpace(s: string) { forall i :: 0 <= i < |s| ==> s[i] in {' ', '\t', '\n', '\r'} }

  predicate LiteralChar(c: char) { '0' <= c <= '9' || 'a' <= c <= 'z' || c in {'+', '-', '.', 'E'} }

  predicate Valid(v: Json) {
    match v
    case Literal(text) => forall i :: 0 <= i < |text| ==> LiteralChar(text[i])
    case Text(pieces) => ValidString(pieces)
    case Arr(pad, items) => IsSpace(pad) && ValidItems(items)
    case Obj(pad, members) => IsSpace(pad) && ValidMembers(members)
  }

  predicate ValidItems(items: Items) {
    items.Item? ==> IsSpace(items.before) && Valid(items.value) && IsSpace(items.after) && ValidItems(items.rest)
  }

  predicate ValidMembers(ms: Members) {
    ms.Member? ==>
      && IsSpace(ms.before) && ValidString(ms.key) && IsSpace(ms.colon.0) && IsSpace(ms.colon.1)
      && Valid(ms.value) && IsSpace(ms.after) && ValidMembers(ms.rest)
  }

  function Print(v: Json): string {
    match v
    case Literal(text) => text
    case Text(pieces) => PrintString(pieces)
    case Arr(pad, items) => "[" + pad + PrintItems(items) + "]"
    case Obj(pad, members) => "{" + (pad + PrintMembers(members)) + "}"
  }

  function PrintItems(items: Items): string {
    match items
    case NoItems => ""
    case Item(before, value, after, rest) =>
      before + Print(value) + after + (if rest.NoItems? then "" else ",") + PrintItems(rest)
  }

  function PrintMembers(ms: Members): string {
    match ms
    case NoMembers => ""
    case Member(before, key, colon, value, after, rest) =>
      before + PrintString(key) + (colon.0 + ":" + colon.1) + Print(value) + after
      + (if rest.NoMembers? then "" else ",") + PrintMembers(rest)
  }

  // ---------------------------------------------------------------- the scan passes over printed text

  /** Text that means nothing to the scan outside a string. */
  predicate Inert(t: string) { forall i :: 0 <= i < |t| ==> t[i] !in {'"', '{', '}'} }

  predicate Passes(s: ScanState, t: string) { Through(s, t) == Some(s) }

  lemma PassBoth(s: ScanState, a: string, b: string)
    requires Passes(s, a) && Passes(s, b)
    ensures Passes(s, a + b)
  {
    ThroughConcat(s, a, b);
  }

  lemma {:induction false} PassInert(s: ScanState, t: string)
    requires !s.inStr && Inert(t)
    ensures Passes(s, t)
    decreases |t|
  {
    if t != "" { PassInert(s, t[1..]); }
  }

  lemma {:induction false} PassHex(s: ScanState, hex: string)
    requires s.inStr && !s.escape && forall i :: 0 <= i < |hex| ==> IsHex(hex[i])
    ensures Passes(s, hex)
    decreases |hex|
  {
    if hex != "" { PassHex(s, hex[1..]); }
  }

  lemma PassPiece(s: ScanState, p: Piece)
    requires s.inStr && !s.escape && ValidPiece(p)
    ensures Passes(s, PrintPiece(p))
  {
    var t := PrintPiece(p);
    if p.Raw? {
      assert t[1..] == "";
    } else {
      var mid := Next(s, t[0]);
      assert t[1..][0] == t[1] && Next(mid, t[1]) == s;
      if p.Unicode? {
        assert t[1..][1..] == p.hex;
        PassHex(s, p.hex);
      } else {
        assert t[1..][1..] == "";
        assert Through(mid, t[1..]) == Some(s);
      }
    }
  }

  lemma {:induction false} PassPieces(s: ScanState, ps: seq<Piece>)
    requires s.inStr && !s.escape && ValidString(ps)
    ensures Passes(s, PrintPieces(ps))
    decreases |ps|
  {
    if ps != [] {
      PassPiece(s, ps[0]);
      PassPieces(s, ps[1..]);
      PassBoth(s, PrintPiece(ps[0]), PrintPieces(ps[1..]));
    }
  }

  lemma PassString(s: ScanState, ps: seq<Piece>)
    requires !s.inStr && !s.escape && ValidString(ps)
    ensures Passes(s, PrintString(ps))
  {
    var inside := s.(inStr := true);
    PassPieces(inside, ps);
    assert Through(s, ['"']) == Some(inside);
    ThroughConcat(s, ['"'], PrintPieces(ps));
    assert Through(inside, ['"']) == Some(s);
    ThroughConcat(s, ['"'] + PrintPieces(ps), ['"']);
  }

  /** Inside some object, the scan takes a whole printed value and is where it was. */
  lemma {:induction false} PassValue(s: ScanState, v: Json)
    requires s.depth > 0 && !s.inStr && !s.escape && Valid(v)
    ensures Passes(s, Print(v))
    decreases v
  {
    match v
    case Literal(text) => PassInert(s, text);
    case Text(pieces) => PassString(s, pieces);
    case Arr(pad, items) =>
      PassInert(s, "[" + pad);
      PassItems(s, items);
      PassBoth(s, "[" + pad, PrintItems(items));
      PassInert(s, "]");
      PassBoth(s, "[" + pad + PrintItems(items), "]");
    case Obj(pad, members) =>
      var inside := s.(depth := s.depth + 1);
      PassInside(inside, pad, members);
      assert Through(s, "{") == Some(inside);
      ThroughConcat(s, "{", pad + PrintMembers(members));
      assert Through(inside, "}") == Some(s);
      ThroughConcat(s, "{" + (pad + PrintMembers(members)), "}");
  }

  lemma {:induction false} PassInside(s: ScanState, pad: string, ms: Members)
    requires s.depth > 0 && !s.inStr && !s.escape && IsSpace(pad) && ValidMembers(ms)
    ensures Passes(s, pad + PrintMembers(ms))
    decreases ms, 1
  {
    PassInert(s, pad);
    PassMembers(s, ms);
    PassBoth(s, pad, PrintMembers(ms));
  }

  lemma {:induction false} PassItems(s: ScanState, items: Items)
    requires s.depth > 0 && !s.inStr && !s.escape && ValidItems(items)
    ensures Passes(s, PrintItems(items))
    decreases items
  {
    if items.Item? {
      var comma := if items.rest.NoItems? then "" else ",";
      PassInert(s, items.before);
      PassValue(s, items.value);
      PassInert(s, items.after);
      PassInert(s, comma);
      PassItems(s, items.rest);
      PassBoth(s, items.before, Print(items.value));
      PassBoth(s, items.before + Print(items.value), items.after);
      PassBoth(s, items.before + Print(items.value) + items.after, comma);
      PassBoth(s, items.before + Print(items.value) + items.after + comma, PrintItems(items.rest));
    }
  }

  lemma {:induction false} PassMembers(s: ScanState, ms: Members)
    requires s.depth > 0 && !s.inStr && !s.escape && ValidMembers(ms)
    ensures Passes(s, PrintMembers(ms))
    decreases ms, 0
  {
    if ms.Member? {
      var (key, value) := (PrintString(ms.key), Print(ms.value));
      var colon := ms.colon.0 + ":" + ms.colon.1;
      var comma := if ms.rest.NoMembers? then "" else ",";
      PassInert(s, ms.before);
      PassString(s, ms.key);
      PassInert(s, colon);
      PassValue(s, ms.value);
      PassInert(s, ms.after);
      PassInert(s, comma);
      PassMembers(s, ms.rest);
      PassBoth(s, ms.before, key);
      PassBoth(s, ms.before + key, colon);
      PassBoth(s, ms.before + key + colon, value);
      PassBoth(s, ms.before + key + colon + value, ms.after);
      PassBoth(s, ms.before + key + colon + value + ms.after, comma);
      PassBoth(s, ms.before + key + colon + value + ms.after + comma, PrintMembers(ms.rest));
    }
  }

  // ---------------------------------------------------------------- what the scan selects

  /** The scan of a printed object followed by anything ends exactly at the object's own last brace. */
  lemma ObjectEndsAtItsBrace(v: Json, tail: string)
    requires v.Obj? && Valid(v)
    ensures Ends(OUTSIDE, Print(v) + tail) == Some(|Print(v)|)
  {
    var inside := ScanState(1, false, false);
    var body := "{" + (v.pad + PrintMembers(v.members));
    PassInside(inside, v.pad, v.members);
    assert Through(OUTSIDE, "{") == Some(inside);
    ThroughConcat(OUTSIDE, "{", v.pad + PrintMembers(v.members));
    ThroughConcat(OUTSIDE, body, "}" + tail);
    assert Print(v) + tail == body + ("}" + tail);
  }

  lemma {:induction false} FindAfterProse(prose: string, t: string)
    requires '{' !in prose && t != "" && t[0] == '{'
    ensures FindOpen(prose + t) == Some(|prose|)
    decreases |prose|
  {
    if prose == "" {
      assert prose + t == t;
    } else {
      assert (prose + t)[1..] == prose[1..] + t;
      FindAfterProse(prose[1..], t);
    }
  }

  /** For every printed object, after prose without "{" and before any text, the scan selects exactly the object. */
  lemma SelectsThePrintedObject(prose: string, v: Json, tail: string)
    requires '{' !in prose && v.Obj? && Valid(v)
    ensures Candidate(prose + Print(v) + tail) == Some(Print(v))
  {
    var text := prose + Print(v) + tail;
    assert text == prose + (Print(v) + tail);
    FindAfterProse(prose, Print(v) + tail);
    ObjectEndsAtItsBrace(v, tail);
    assert text[|prose|..] == Print(v) + tail;
    assert text[|prose|..|prose| + |Print(v)|] == Print(v);
  }

  // ---------------------------------------------------------------- white space around the reply

  predicate IsBlank(c: char) { c in {' ', '\t', '\n', '\r'} }

  function StripLeft(t: string): string { if t != "" && IsBlank(t[0]) then StripLeft(t[1..]) else t }

  function StripRight(t: string): string {
    if t != "" && IsBlank(t[|t| - 1]) then StripRight(t[..|t| - 1]) else t
  }

  /** `text.strip()` */
  function Strip(t: string): string { StripRight(StripLeft(t)) }

  lemma {:induction false} StripLeftStops(a: string, t: string)
    requires t != "" && !IsBlank(t[0])
    ensures StripLeft(a + t) == StripLeft(a) + t
    ensures forall c :: c in StripLeft(a) ==> c in a
    decreases |a|
  {
    if a == "" {
      assert a + t == t;
    } else {
      assert (a + t)[1..] == a[1..] + t;
      StripLeftStops(a[1..], t);
    }
  }

  lemma {:induction false} StripRightStops(t: string, b: string)
    requires t != "" && !IsBlank(t[|t| - 1])
    ensures StripRight(t + b) == t + StripRight(b)
    decreases |b|
  {
    if b == "" {
      assert t + b == t;
    } else {
      assert (t + b)[..|t + b| - 1] == t + b[..|b| - 1];
      StripRightStops(t, b[..|b| - 1]);
    }
  }

  /** The same for the reply as it came, white space and all. */
  lemma SelectsFromTheRawReply(prose: string, v: Json, tail: string)
    requires '{' !in prose && v.Obj? && Valid(v)
    ensures Candidate(Strip(prose + Print(v) + tail)) == Some(Print(v))
  {
    var p := Print(v);
    assert prose + p + tail == prose + (p + tail) && StripLeft(prose) + p + tail == StripLeft(prose) + (p + tail);
    StripLeftStops(prose, p + tail);
    StripRightStops(StripLeft(prose) + p, tail);
    SelectsThePrintedObject(StripLeft(prose), v, StripRight(tail));
  }

  lemma {:induction false} NoEarlierEnd(s: ScanState, t: string, k: nat)
    requires Ends(s, t).Some? && k < Ends(s, t).value
    ensures Ends(s, t[..k]) == None
    decreases k
  {
    if k > 0 {
      assert t[..k][1..] == t[1..][..k - 1];
      NoEarlierEnd(Next(s, t[0]), t[1..], k - 1);
    }
  }

  /** A printed object that was cut short anywhere yields no candidate at all. */
  lemma CutShortSelectsNothing(prose: string, v: Json, k: nat)
    requires '{' !in prose && v.Obj? && Valid(v) && k < |Print(v)|
    ensures Candidate(prose + Print(v)[..k]) == None
  {
    ObjectEndsAtItsBrace(v, "");
    assert Print(v) + "" == Print(v);
    NoEarlierEnd(OUTSIDE, Print(v), k);
    var text := prose + Print(v)[..k];
    if k > 0 {
      FindAfterProse(prose, Print(v)[..k]);
      assert text[|prose|..] == Print(v)[..k];
    }
  }
}
