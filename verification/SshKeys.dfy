/** Customers' SSH keys: the control plane parses and prints them, and the privileged
    side checks the printed file again with a validator of its own. */
module SshKeys {
  import opened Common

  const ALLOWED_TYPES: set<string> := {
    "ssh-ed25519", "sk-ssh-ed25519@openssh.com", "ssh-rsa", "rsa-sha2-256", "rsa-sha2-512",
    "ecdsa-sha2-nistp256", "ecdsa-sha2-nistp384", "ecdsa-sha2-nistp521", "sk-ecdsa-sha2-nistp256@openssh.com"
  }

  const MAX_KEYS := 10
  const MAX_LINE := 8192
  const MAX_COMMENT := 200
  const HEADER := "# Managed by MMD-DEV." + " Edits here are replaced" + " when keys change."

  /** What the platform decides: which characters are word characters, and what a base64
      text decodes to. */
  datatype Platform = Platform(word: char -> bool, decode: string -> Option<seq<int>>)

  /** No word character is white space. */
  ghost predicate Sane(p: Platform) {
    forall c: char :: p.word(c) ==> !IsSpace(c)
  }

  // ---------------------------------------------------------------- text, as Python has it

  predicate IsBreak(c: char) {
    '\n' <= c <= '\r' || '\U{1c}' <= c <= '\U{1e}' || c == '\U{85}' || c == '\U{2028}' || c == '\U{2029}'
  }

  predicate IsSpace(c: char) {
    || IsBreak(c) || c == '\t' || c == '\U{1f}' || c == ' ' || c == '\U{a0}' || c == '\U{1680}'
    || '\U{2000}' <= c <= '\U{200a}' || c == '\U{202f}' || c == '\U{205f}' || c == '\U{3000}'
  }

  /** The length of the longest prefix without a line break. */
  function BreakAt(s: string): (n: nat)
    ensures n <= |s| && (n < |s| ==> IsBreak(s[n]))
    ensures forall i :: 0 <= i < n ==> !IsBreak(s[i])
  {
    if s == "" || IsBreak(s[0]) then 0 else 1 + BreakAt(s[1..])
  }

  function SplitLines(s: string): seq<string> {
    if s == "" then []
    else
      var n := BreakAt(s);
      if n == |s| then [s]
      else if s[n] == '\r' && n + 1 < |s| && s[n + 1] == '\n' then [s[..n]] + SplitLines(s[n + 2..])
      else [s[..n]] + SplitLines(s[n + 1..])
  }

  /** The length of the longest prefix without white space. */
  function SpaceAt(s: string): (n: nat)
    ensures n <= |s| && (n < |s| ==> IsSpace(s[n]))
    ensures forall i :: 0 <= i < n ==> !IsSpace(s[i])
  {
    if s == "" || IsSpace(s[0]) then 0 else 1 + SpaceAt(s[1..])
  }

  function StripLeft(s: string): (r: string)
    ensures |r| <= |s| && (r != "" ==> !IsSpace(r[0]))
    ensures r != "" && s != "" ==> r[|r| - 1] == s[|s| - 1]
  {
    if s != "" && IsSpace(s[0]) then StripLeft(s[1..]) else s
  }

  function StripRight(s: string): (r: string)
    ensures r <= s && (r != "" ==> !IsSpace(r[|r| - 1]))
  {
    if s != "" && IsSpace(s[|s| - 1]) then StripRight(s[..|s| - 1]) else s
  }

  function Strip(s: string): string {
    StripRight(StripLeft(s))
  }

  /** At most three fields: two words and whatever follows them. */
  function Fields(s: string): seq<string> {
    var a := StripLeft(s);
    if a == "" then []
    else
      var b := StripLeft(a[SpaceAt(a)..]);
      if b == "" then [a[..SpaceAt(a)]]
      else
        var c := StripLeft(b[SpaceAt(b)..]);
        if c == "" then [a[..SpaceAt(a)], b[..SpaceAt(b)]]
        else [a[..SpaceAt(a)], b[..SpaceAt(b)], c]
  }

  predicate All(s: string, ok: char -> bool) {
    forall i :: 0 <= i < |s| ==> ok(s[i])
  }

  predicate Base64Char(c: char) {
    'A' <= c <= 'Z' || 'a' <= c <= 'z' || '0' <= c <= '9' || c == '+' || c == '/'
  }

  /** Letters of the alphabet, then at most three equals signs. */
  predicate Base64(s: string) {
    exists n: nat :: 1 <= n <= |s| <= n + 3 && All(s[..n], Base64Char) && All(s[n..], c => c == '=')
  }

  predicate Comment(s: string, p: Platform) {
    |s| <= MAX_COMMENT && forall i :: 0 <= i < |s| ==> p.word(s[i]) || s[i] in ".@+/:- "
  }

  /** What a pattern that ends in `$` matches: it also allows one final line feed. */
  function Chomped(s: string): string {
    if s != "" && s[|s| - 1] == '\n' then s[..|s| - 1] else s
  }

  // ------------------------------------------------------------------ the control plane

  datatype Key = Key(kind: string, body: string, comment: string)

  datatype KeyError = BadKey | BadType | NoKey | TooMany

  datatype Result<T> = Ok(value: T) | Err(error: KeyError)

  /** The blob begins with a length and a copy of the key's type: section 6.6 of RFC 4253. */
  predicate Names(raw: seq<int>, kind: string) {
    && |raw| >= 4
    && raw[0] * 0x1000000 + raw[1] * 0x10000 + raw[2] * 0x100 + raw[3] == |kind| <= |raw| - 4
    && forall i :: 0 <= i < |kind| ==> raw[4 + i] == kind[i] as int
  }

  function ParseKey(text: string, p: Platform): Result<Key> {
    var line := Strip(text);
    if line == "" || line[0] == '#' || |line| > MAX_LINE then Err(BadKey)
    else if '\n' in line || '\r' in line then Err(BadKey)
    else
      var parts := Fields(line);
      if |parts| < 2 then Err(BadKey)
      else
        var k := Key(parts[0], parts[1], if |parts| > 2 then parts[2] else "");
        if k.kind !in ALLOWED_TYPES then Err(BadType)
        else if !Base64(k.body) && !Base64(Chomped(k.body)) then Err(BadKey)
        else
          match p.decode(k.body)
          case None => Err(BadKey)
          case Some(raw) =>
            if |raw| < 16 || !Names(raw, k.kind) then Err(BadKey)
            else if k.comment != "" && !Comment(k.comment, p) && !Comment(Chomped(k.comment), p) then Err(BadKey)
            else Ok(k)
  }

  predicate Relevant(line: string) {
    Strip(line) != "" && Strip(line)[0] != '#'
  }

  function RelevantOf(lines: seq<string>): seq<string> {
    if lines == [] then []
    else
      var front := RelevantOf(lines[..|lines| - 1]);
      if Relevant(lines[|lines| - 1]) then front + [lines[|lines| - 1]] else front
  }

  predicate HasBody(keys: seq<Key>, body: string) {
    exists k :: k in keys && k.body == body
  }

  /** One key for every body, in the order they first appear; the first bad line decides. */
  function ParseLines(lines: seq<string>, p: Platform): Result<seq<Key>> {
    if lines == [] then Ok([])
    else
      match ParseLines(lines[..|lines| - 1], p)
      case Err(e) => Err(e)
      case Ok(out) =>
        match ParseKey(lines[|lines| - 1], p)
        case Err(e) => Err(e)
        case Ok(k) => Ok(if HasBody(out, k.body) then out else out + [k])
  }

  function Normalised(text: string, p: Platform): Result<seq<Key>> {
    var lines := RelevantOf(SplitLines(text));
    if lines == [] then Err(NoKey)
    else if |lines| > MAX_KEYS then Err(TooMany)
    else ParseLines(lines, p)
  }

  method Normalise(text: string, p: Platform) returns (r: Result<seq<Key>>)
    ensures r == Normalised(text, p)
  {
    hide ParseKey, SplitLines, Relevant;
    var all, lines := SplitLines(text), [];
    for i := 0 to |all|
      invariant lines == RelevantOf(all[..i])
    {
      assert all[..i + 1][..i] == all[..i];
      if Relevant(all[i]) {
        lines := lines + [all[i]];
      }
    }
    assert all[..|all|] == all;
    if lines == [] {
      return Err(NoKey);
    }
    if |lines| > MAX_KEYS {
      return Err(TooMany);
    }
    var out: seq<Key>, seen: set<string> := [], {};
    for i := 0 to |lines|
      invariant ParseLines(lines[..i], p) == Ok(out)
      invariant forall b :: b in seen <==> HasBody(out, b)
    {
      assert lines[..i + 1][..i] == lines[..i];
      match ParseKey(lines[i], p)
      case Err(e) =>
        FirstErrorDecides(lines, i + 1, p);
        return Err(e);
      case Ok(k) =>
        if k.body !in seen {
          seen := seen + {k.body};
          out := out + [k];
        }
    }
    assert lines[..|lines|] == lines;
    r := Ok(out);
  }

  lemma {:induction false} FirstErrorDecides(lines: seq<string>, n: nat, p: Platform)
    requires n <= |lines| && ParseLines(lines[..n], p).Err?
    ensures ParseLines(lines, p) == ParseLines(lines[..n], p)
    decreases |lines|
  {
    hide ParseKey;
    if n < |lines| {
      var front := lines[..|lines| - 1];
      assert front[..n] == lines[..n];
      FirstErrorDecides(front, n, p);
    } else {
      assert lines[..n] == lines;
    }
  }

  function Line(k: Key): string {
    k.kind + " " + k.body + (if k.comment == "" then "" else " " + k.comment)
  }

  function LinesOf(keys: seq<Key>): seq<string> {
    seq(|keys|, i requires 0 <= i < |keys| => Line(keys[i]))
  }

  function Joined(lines: seq<string>): string {
    if lines == [] then ""
    else if |lines| == 1 then lines[0]
    else lines[0] + "\n" + Joined(lines[1..])
  }

  function AuthorizedKeysBody(keys: seq<Key>): string {
    HEADER + "\n" + Joined(LinesOf(keys)) + "\n"
  }

  // --------------------------------------------------------------- the privileged side

  datatype Complaint = Nothing | NoKeys | TooManyKeys | Malformed | UnsupportedType | NotBase64 | BadComment

  function Stripped(lines: seq<string>): seq<string> {
    seq(|lines|, i requires 0 <= i < |lines| => Strip(lines[i]))
  }

  function CheckLine(line: string, p: Platform): Complaint {
    var parts := Fields(line);
    if |parts| < 2 then Malformed
    else if parts[0] !in ALLOWED_TYPES then UnsupportedType
    else if !Base64(parts[1]) then NotBase64
    else if |parts| > 2 && !Comment(parts[2], p) then BadComment
    else Nothing
  }

  /** The lines that are neither blank nor comments, of lines already stripped. */
  function RealOf(lines: seq<string>): seq<string> {
    if lines == [] then []
    else
      var front, last := RealOf(lines[..|lines| - 1]), lines[|lines| - 1];
      if last != "" && last[0] != '#' then front + [last] else front
  }

  function CheckLines(lines: seq<string>, p: Platform): Complaint {
    if lines == [] then Nothing
    else if CheckLine(lines[0], p) != Nothing then CheckLine(lines[0], p)
    else CheckLines(lines[1..], p)
  }

  function Checked(body: string, p: Platform): Complaint {
    var counted := RealOf(Stripped(SplitLines(body)));
    if counted == [] then NoKeys
    else if |counted| > 10 then TooManyKeys
    else CheckLines(counted, p)
  }

  method CheckAuthorizedKeys(body: string, p: Platform) returns (c: Complaint)
    ensures c == Checked(body, p)
  {
    hide Fields, Base64, Comment, SplitLines, RealOf;
    var counted := RealOf(Stripped(SplitLines(body)));
    if counted == [] {
      return NoKeys;
    }
    if |counted| > 10 {
      return TooManyKeys;
    }
    for i := 0 to |counted|
      invariant CheckLines(counted, p) == CheckLines(counted[i..], p)
    {
      assert counted[i..][1..] == counted[i + 1..];
      var parts := Fields(counted[i]);
      if |parts| < 2 {
        return Malformed;
      }
      if parts[0] !in ALLOWED_TYPES {
        return UnsupportedType;
      }
      if !Base64(parts[1]) {
        return NotBase64;
      }
      if |parts| > 2 && !Comment(parts[2], p) {
        return BadComment;
      }
    }
    c := Nothing;
  }

  // ------------------------------------------------------------------- facts about text

  predicate NoSpace(s: string) {
    forall i :: 0 <= i < |s| ==> !IsSpace(s[i])
  }

  predicate NoBreak(s: string) {
    forall i :: 0 <= i < |s| ==> !IsBreak(s[i])
  }

  /** No white space at either end. */
  predicate Trim(s: string) {
    s != "" ==> !IsSpace(s[0]) && !IsSpace(s[|s| - 1])
  }

  lemma {:induction false} StripIsTrim(s: string)
    ensures Trim(Strip(s))
  {
    var l := StripLeft(s);
    if Strip(s) != "" {
      assert Strip(s)[0] == l[0];
    }
  }

  lemma TrimStrips(s: string)
    requires Trim(s)
    ensures Strip(s) == s
  {
  }

  lemma {:induction false} WordEndsAt(w: string, rest: string)
    requires NoSpace(w) && (rest == "" || IsSpace(rest[0]))
    ensures SpaceAt(w + rest) == |w|
  {
    if w == "" {
      assert w + rest == rest;
    } else {
      assert (w + rest)[1..] == w[1..] + rest;
      WordEndsAt(w[1..], rest);
    }
  }

  lemma StripLeftWord(s: string)
    requires s != "" ==> !IsSpace(s[0])
    ensures StripLeft(s) == s
  {
  }

  /** What the fields of a trimmed line look like, and that they are no longer than it. */
  lemma {:induction false} FieldsAreClean(s: string)
    requires Trim(s) && |Fields(s)| >= 2
    ensures var f := Fields(s);
            && NoSpace(f[0]) && f[0] != "" && f[0][0] == s[0] && NoSpace(f[1]) && f[1] != ""
            && |f| <= 3 && |f[0]| + 1 + |f[1]| <= |s|
            && (|f| == 3 ==> f[2] != "" && Trim(f[2]) && |f[0]| + 1 + |f[1]| + 1 + |f[2]| <= |s|)
  {
    hide StripLeft, SpaceAt;
    StripLeftWord(s);
    var n := SpaceAt(s);
    var b := StripLeft(s[n..]);
    assert b[|b| - 1] == s[|s| - 1];
    SpaceIsDropped(s[n..]);
    var m := SpaceAt(b);
    var c := StripLeft(b[m..]);
    if c != "" {
      assert c[|c| - 1] == b[|b| - 1];
      SpaceIsDropped(b[m..]);
    }
  }

  lemma SpaceIsDropped(s: string)
    requires s != "" && IsSpace(s[0])
    ensures |StripLeft(s)| < |s|
  {
  }

  /** Two words and a trimmed rest, with single spaces between, are its own fields. */
  lemma {:induction false} FieldsOfLine(k: Key)
    requires NoSpace(k.kind) && k.kind != "" && NoSpace(k.body) && k.body != "" && Trim(k.comment)
    ensures Fields(Line(k)) == if k.comment == "" then [k.kind, k.body] else [k.kind, k.body, k.comment]
    ensures Trim(Line(k)) && Line(k)[0] == k.kind[0]
  {
    hide Fields, Trim;
    var c := if k.comment == "" then "" else " ";
    FieldsOfLaid(k, " ", c);
    assert Line(k) == k.kind + (" " + (k.body + (c + k.comment)));
  }

  lemma {:induction false} FirstBreak(a: string, rest: string)
    requires NoBreak(a)
    ensures BreakAt(a + "\n" + rest) == |a|
  {
    var s := a + "\n" + rest;
    if a != "" {
      assert s[1..] == a[1..] + "\n" + rest;
      FirstBreak(a[1..], rest);
    }
  }

  lemma {:induction false} SplitFirst(a: string, rest: string)
    requires NoBreak(a)
    ensures SplitLines(a + "\n" + rest) == [a] + SplitLines(rest)
  {
    var s := a + "\n" + rest;
    FirstBreak(a, rest);
    assert s[|a|] == '\n';
    assert s[..|a|] == a && s[|a| + 1..] == rest;
  }

  lemma {:induction false} SplitJoined(lines: seq<string>)
    requires lines != [] && forall i :: 0 <= i < |lines| ==> NoBreak(lines[i])
    ensures SplitLines(Joined(lines) + "\n") == lines
  {
    if |lines| == 1 {
      assert lines[0] + "\n" == lines[0] + "\n" + "";
      SplitFirst(lines[0], "");
    } else {
      SplitJoined(lines[1..]);
      assert Joined(lines) + "\n" == lines[0] + "\n" + (Joined(lines[1..]) + "\n");
      SplitFirst(lines[0], Joined(lines[1..]) + "\n");
    }
  }

  // ------------------------------------------------------------------------- results

  /** Clean fields: words without white space, a trimmed comment of allowed characters,
      and a printed line within the limit. */
  ghost predicate Clean(k: Key, p: Platform) {
    && NoSpace(k.kind) && k.kind != "" && k.kind[0] != '#' && NoSpace(k.body) && k.body != ""
    && Trim(k.comment) && (k.comment != "" ==> Comment(k.comment, p))
    && Base64(k.body) && |Line(k)| <= MAX_LINE
  }

  /** An allowed type, and a body that decodes to a blob of that type. */
  predicate Matches(k: Key, p: Platform) {
    && k.kind in ALLOWED_TYPES
    && p.decode(k.body).Some? && |p.decode(k.body).value| >= 16 && Names(p.decode(k.body).value, k.kind)
  }

  /** A key that parses is clean and genuine, and its line passes the other check. */
  lemma {:induction false} ParsedIsClean(text: string, p: Platform)
    ensures ParseKey(text, p).Ok? ==>
      && Clean(ParseKey(text, p).value, p) && Matches(ParseKey(text, p).value, p)
      && CheckLine(Strip(text), p) == Nothing
  {
    hide Base64, Comment, Fields, Names, Strip;
    if ParseKey(text, p).Ok? {
      var line, k := Strip(text), ParseKey(text, p).value;
      StripIsTrim(text);
      FieldsAreClean(line);
      assert Chomped(k.body) == k.body;
      assert Chomped(k.comment) == k.comment;
    }
  }

  // ------------------------------------------------------------- what a line says

  predicate Blank(s: string) {
    forall i :: 0 <= i < |s| ==> IsSpace(s[i])
  }

  /** A text as a line reads: `a` and `d` around it, `b` and `c` between its fields. */
  function Laid(k: Key, a: string, b: string, c: string, d: string): string {
    a + ((k.kind + (b + (k.body + (c + k.comment)))) + d)
  }

  /** The text is a type, a body and perhaps a comment, with white space around and between
      them, on one line that is not too long and not a comment. */
  predicate Reads(text: string, k: Key, a: string, b: string, c: string, d: string) {
    && text == Laid(k, a, b, c, d)
    && Blank(a) && Blank(b) && Blank(c) && Blank(d)
    && NoSpace(k.kind) && k.kind != "" && k.kind[0] != '#' && NoSpace(k.body) && k.body != "" && Trim(k.comment)
    && b != "" && (k.comment == "" <==> c == "")
    && |text| - |a| - |d| <= 8192
    && '\n' !in b + c + k.comment && '\r' !in b + c + k.comment
  }

  lemma {:induction false} StripLeftBlank(a: string, x: string)
    requires Blank(a) && (x == "" || !IsSpace(x[0]))
    ensures StripLeft(a + x) == x
  {
    if a == "" {
      assert a + x == x;
    } else {
      assert (a + x)[1..] == a[1..] + x;
      StripLeftBlank(a[1..], x);
    }
  }

  lemma {:induction false} StripRightBlank(x: string, d: string)
    requires Blank(d) && (x == "" || !IsSpace(x[|x| - 1]))
    ensures StripRight(x + d) == x
  {
    if d == "" {
      assert x + d == x;
    } else {
      assert (x + d)[..|x + d| - 1] == x + d[..|d| - 1];
      StripRightBlank(x, d[..|d| - 1]);
    }
  }

  lemma {:induction false} StripSplits(s: string) returns (a: string, d: string)
    ensures Blank(a) && Blank(d) && s == a + (Strip(s) + d)
  {
    hide StripLeft, StripRight;
    var l := StripLeft(s);
    a := LeftBlank(s);
    d := RightBlank(l);
    assert l == Strip(s) + d;
    assert s == a + l;
  }

  lemma {:induction false} LeftBlank(s: string) returns (a: string)
    ensures Blank(a) && s == a + StripLeft(s)
  {
    a := "";
    if s != "" && IsSpace(s[0]) {
      a := LeftBlank(s[1..]);
      a := [s[0]] + a;
    }
  }

  lemma {:induction false} RightBlank(s: string) returns (d: string)
    ensures Blank(d) && s == StripRight(s) + d
  {
    d := "";
    if s != "" && IsSpace(s[|s| - 1]) {
      d := RightBlank(s[..|s| - 1]);
      d := d + [s[|s| - 1]];
    }
  }

  lemma FieldsFrom(s: string, rest: string, comment: string)
    requires s != "" && StripLeft(s) == s && rest != "" && StripLeft(s[SpaceAt(s)..]) == rest
    requires StripLeft(rest[SpaceAt(rest)..]) == comment
    ensures Fields(s) ==
      if comment == "" then [s[..SpaceAt(s)], rest[..SpaceAt(rest)]]
      else [s[..SpaceAt(s)], rest[..SpaceAt(rest)], comment]
  {
    hide StripLeft, SpaceAt;
  }

  /** The fields of such a line are what it was laid out from. */
  lemma {:induction false} FieldsOfLaid(k: Key, b: string, c: string)
    requires NoSpace(k.kind) && k.kind != "" && NoSpace(k.body) && k.body != "" && Trim(k.comment)
    requires Blank(b) && Blank(c) && b != "" && (k.comment == "" <==> c == "")
    ensures var s := k.kind + (b + (k.body + (c + k.comment)));
            && Fields(s) == (if k.comment == "" then [k.kind, k.body] else [k.kind, k.body, k.comment])
            && Trim(s)
  {
    hide StripLeft, SpaceAt, Fields, Trim, Blank, IsSpace;
    var tail := c + k.comment;
    var rest := k.body + tail;
    var s := k.kind + (b + rest);
    LaidEnds(k, b, c);
    LaidBegins(k.kind, b + rest);
    LaidBegins(k.body, tail);
    BlankBegins(b, rest);
    BlankBegins(c, k.comment);
    StripLeftWord(s);
    WordEndsAt(k.kind, b + rest);
    StripLeftBlank(b, rest);
    WordEndsAt(k.body, tail);
    StripLeftBlank(c, k.comment);
    FieldsFrom(s, rest, k.comment);
  }

  lemma LaidBegins(word: string, rest: string)
    requires NoSpace(word) && word != ""
    ensures (word + rest)[|word|..] == rest && (word + rest)[..|word|] == word
    ensures !IsSpace((word + rest)[0])
  {
  }

  lemma BlankBegins(a: string, rest: string)
    requires Blank(a) && (a == "" ==> rest == "")
    ensures a + rest == "" || IsSpace((a + rest)[0])
  {
  }

  lemma LaidEnds(k: Key, b: string, c: string)
    requires NoSpace(k.kind) && k.kind != "" && NoSpace(k.body) && k.body != "" && Trim(k.comment)
    requires k.comment == "" <==> c == ""
    ensures Trim(k.kind + (b + (k.body + (c + k.comment))))
    ensures k.comment != "" ==> !IsSpace(k.comment[0])
  {
    var s := k.kind + (b + (k.body + (c + k.comment)));
    assert s[0] == k.kind[0];
    assert s[|s| - 1] == if k.comment == "" then k.body[|k.body| - 1] else k.comment[|k.comment| - 1];
  }

  /** And the other way round: a line of two or three fields is laid out from them. */
  lemma {:induction false} LaidFromFields(s: string) returns (b: string, c: string)
    requires Trim(s) && |Fields(s)| >= 2
    ensures Blank(b) && Blank(c)
    ensures var f := Fields(s); s == f[0] + (b + (f[1] + (c + if |f| == 3 then f[2] else "")))
    ensures b != "" && (|Fields(s)| == 2 <==> c == "")
  {
    hide StripLeft, SpaceAt, Fields, IsSpace, Trim, Blank;
    var rest, comment := FieldsAt(s);
    b := LeftBlank(s[SpaceAt(s)..]);
    c := LeftBlank(rest[SpaceAt(rest)..]);
    Glued(s, SpaceAt(s), b + rest);
    Glued(rest, SpaceAt(rest), c + comment);
    SpaceComesFirst(s[SpaceAt(s)..], b, rest);
    if comment == "" {
      LastIsKept(s, rest, SpaceAt(rest));
    } else {
      SpaceComesFirst(rest[SpaceAt(rest)..], c, comment);
    }
  }

  lemma FieldsAt(s: string) returns (rest: string, comment: string)
    requires Trim(s) && |Fields(s)| >= 2
    ensures s != "" && StripLeft(s[SpaceAt(s)..]) == rest && rest != "" && !IsSpace(rest[0])
    ensures SpaceAt(s) < |s| && IsSpace(s[SpaceAt(s)]) && rest[|rest| - 1] == s[|s| - 1]
    ensures StripLeft(rest[SpaceAt(rest)..]) == comment
    ensures comment != "" ==> !IsSpace(comment[0]) && SpaceAt(rest) < |rest| && IsSpace(rest[SpaceAt(rest)])
    ensures Fields(s) ==
      if comment == "" then [s[..SpaceAt(s)], rest[..SpaceAt(rest)]]
      else [s[..SpaceAt(s)], rest[..SpaceAt(rest)], comment]
  {
    hide StripLeft, SpaceAt;
    StripLeftWord(s);
    rest := StripLeft(s[SpaceAt(s)..]);
    comment := StripLeft(rest[SpaceAt(rest)..]);
  }

  lemma Glued(s: string, n: nat, tail: string)
    requires n <= |s| && s[n..] == tail
    ensures s == s[..n] + tail
  {
  }

  lemma SpaceComesFirst(s: string, a: string, x: string)
    requires s == a + x && x != "" && !IsSpace(x[0]) && IsSpace(s[0])
    ensures a != ""
  {
  }

  lemma {:induction false} LastIsKept(s: string, right: string, m: nat)
    requires Trim(s) && s != "" && right != "" && right[|right| - 1] == s[|s| - 1] && m <= |right|
    requires StripLeft(right[m..]) == ""
    ensures right[m..] == ""
  {
    var a := LeftBlank(right[m..]);
    assert a == right[m..];
    assert forall i :: m <= i < |right| ==> right[i] == a[i - m];
  }

  /** The length of a blob's first field, most significant byte first, and the field. */
  lemma {:induction false} NamesIff(raw: seq<int>, kind: string)
    requires |kind| < 256 && forall i :: 0 <= i < |raw| ==> 0 <= raw[i] < 256
    ensures Names(raw, kind) <==>
      |raw| >= 4 + |kind| && raw[..4] == [0, 0, 0, |kind|]
      && raw[4..4 + |kind|] == seq(|kind|, i requires 0 <= i < |kind| => kind[i] as int)
  {
    if Names(raw, kind) {
      assert raw[0] * 0x1000000 + raw[1] * 0x10000 + raw[2] * 0x100 + raw[3] == |kind|;
      assert raw[0] == 0 && raw[1] == 0 && raw[2] == 0 && raw[3] == |kind|;
    }
    if |raw| >= 4 + |kind| && raw[..4] == [0, 0, 0, |kind|]
       && raw[4..4 + |kind|] == seq(|kind|, i requires 0 <= i < |kind| => kind[i] as int) {
      assert raw[0] == raw[..4][0] && raw[1] == raw[..4][1] && raw[2] == raw[..4][2] && raw[3] == raw[..4][3];
      forall i | 0 <= i < |kind| ensures raw[4 + i] == kind[i] as int {
        assert raw[4 + i] == raw[4..4 + |kind|][i];
      }
    }
  }

  /** A letter of the base64 alphabet, by its code: A to Z, a to z, 0 to 9, plus and slash. */
  predicate Letter(c: char) {
    var code := c as int;
    65 <= code <= 90 || 97 <= code <= 122 || 48 <= code <= 57 || code == 43 || code == 47
  }

  /** Letters of the alphabet, at least one, and at most three equals signs after them. */
  predicate Encoded(s: string, letters: string, pad: string) {
    && s == letters + pad && letters != "" && |pad| <= 3
    && (forall i :: 0 <= i < |letters| ==> Letter(letters[i]))
    && (forall i :: 0 <= i < |pad| ==> pad[i] == '=')
  }

  lemma {:induction false} Base64Iff(s: string)
    ensures Base64(s) <==> exists letters, pad :: Encoded(s, letters, pad)
  {
    if Base64(s) {
      var n: nat :| 1 <= n <= |s| <= n + 3 && All(s[..n], Base64Char) && All(s[n..], c => c == '=');
      assert Encoded(s, s[..n], s[n..]);
    }
    if letters, pad :| Encoded(s, letters, pad) {
      var n := |letters|;
      assert s[..n] == letters && s[n..] == pad;
    }
  }

  /** What is asked of the fields, by themselves: one of nine types, a body of the base64
      alphabet with at most three equals signs after it that decodes to a blob of that type,
      and a comment of at most two hundred of the allowed characters. */
  ghost predicate Accepted(k: Key, p: Platform) {
    && k.kind in {"ssh-ed25519", "sk-ssh-ed25519@openssh.com", "ssh-rsa", "rsa-sha2-256", "rsa-sha2-512",
                  "ecdsa-sha2-nistp256", "ecdsa-sha2-nistp384", "ecdsa-sha2-nistp521",
                  "sk-ecdsa-sha2-nistp256@openssh.com"}
    && (exists letters, pad :: Encoded(k.body, letters, pad))
    && p.decode(k.body).Some? && |p.decode(k.body).value| >= 16 && Names(p.decode(k.body).value, k.kind)
    && |k.comment| <= 200
    && forall i :: 0 <= i < |k.comment| ==> p.word(k.comment[i]) || k.comment[i] in ".@+/:- "
  }

  /** A line parses as a key exactly when it reads as that key and its fields are accepted. */
  lemma {:induction false} ParsesIff(text: string, k: Key, p: Platform)
    ensures ParseKey(text, p) == Ok(k) <==>
      Accepted(k, p) && exists a, b, c, d :: Reads(text, k, a, b, c, d)
  {
    hide Base64, Comment, Names, Fields, Strip;
    if ParseKey(text, p) == Ok(k) {
      ParsedReads(text, k, p);
    }
    if a, b, c, d :| Accepted(k, p) && Reads(text, k, a, b, c, d) {
      ReadParses(text, k, p, a, b, c, d);
    }
  }

  lemma {:induction false} ParsedReads(text: string, k: Key, p: Platform)
    requires ParseKey(text, p) == Ok(k)
    ensures Accepted(k, p) && exists a, b, c, d :: Reads(text, k, a, b, c, d)
  {
    hide Base64, Names, Fields, Strip, Encoded;
    var line := Strip(text);
    Base64Iff(k.body);
    StripIsTrim(text);
    FieldsAreClean(line);
    assert Chomped(k.body) == k.body;
    assert Chomped(k.comment) == k.comment;
    var a, d := StripSplits(text);
    var b, c := LaidFromFields(line);
    assert line == k.kind + (b + (k.body + (c + k.comment)));
    assert |text| - |a| - |d| == |line|;
    CharsOfLine(k, b, c);
    assert Reads(text, k, a, b, c, d);
  }

  lemma {:induction false} BlankIsUnique(a: string, x: string, b: string, y: string)
    requires Blank(b) && a + x == b + y && (y == "" || !IsSpace(y[0])) && (x != "" && !IsSpace(x[0]))
    requires Blank(a)
    ensures a == b && x == y
  {
    var s := a + x;
    assert forall i :: 0 <= i < |a| ==> s[i] == a[i];
    assert forall i :: 0 <= i < |b| ==> s[i] == b[i];
    assert s[|a|] == x[0];
    assert y != "" ==> s[|b|] == y[0];
    assert a == (a + x)[..|a|] && b == (b + y)[..|b|];
    assert x == (a + x)[|a|..] && y == (b + y)[|b|..];
  }

  lemma {:induction false} CharsOfLine(k: Key, b: string, c: string)
    ensures var line := k.kind + (b + (k.body + (c + k.comment)));
            forall x: char :: x !in line ==> x !in b + c + k.comment
  {
    var line := k.kind + (b + (k.body + (c + k.comment)));
    forall x: char | x in b + c + k.comment ensures x in line {
      var inner := c + k.comment;
      if x in b {
        assert x in b + (k.body + inner);
      } else {
        assert x in inner;
        assert x in k.body + inner;
        assert x in b + (k.body + inner);
      }
    }
  }

  lemma {:induction false} ReadParses(text: string, k: Key, p: Platform, a: string, b: string, c: string, d: string)
    requires Accepted(k, p) && Reads(text, k, a, b, c, d)
    ensures ParseKey(text, p) == Ok(k)
  {
    hide Base64, Names, Fields, StripLeft, StripRight, Encoded, Accepted, NoSpace, Blank, IsSpace;
    var line := k.kind + (b + (k.body + (c + k.comment)));
    FieldsOfLaid(k, b, c);
    assert line[0] == (line + d)[0];
    StripLeftBlank(a, line + d);
    StripRightBlank(line, d);
    assert line[0] == k.kind[0];
    OnOneLine(k, b, c);
    FieldsParse(text, k, p);
  }

  lemma {:induction false} OnOneLine(k: Key, b: string, c: string)
    requires NoSpace(k.kind) && NoSpace(k.body) && '\n' !in b + c + k.comment && '\r' !in b + c + k.comment
    ensures var line := k.kind + (b + (k.body + (c + k.comment))); '\n' !in line && '\r' !in line
  {
    forall x | x in {'\n', '\r'} ensures x !in k.kind + (b + (k.body + (c + k.comment))) {
      assert x !in k.kind && x !in k.body;
      assert x in b || x in c || x in k.comment ==> x in b + c + k.comment;
    }
  }

  lemma {:induction false} FieldsParse(text: string, k: Key, p: Platform)
    requires Accepted(k, p)
    requires var line := Strip(text);
      && line != "" && line[0] != '#' && |line| <= MAX_LINE && '\n' !in line && '\r' !in line
      && Fields(line) == if k.comment == "" then [k.kind, k.body] else [k.kind, k.body, k.comment]
    ensures ParseKey(text, p) == Ok(k)
  {
    hide Base64, Names, Fields, Strip, Encoded;
    Base64Iff(k.body);
  }

  /** Why a line is refused: for its type exactly when it is a line of two fields or more,
      not too long, not a comment and without an inner break, whose first is none of the
      nine; for anything else as a bad key. */
  lemma {:induction false} LineErrorIff(text: string, p: Platform)
    ensures ParseKey(text, p) == Err(BadType) <==>
      var line := Strip(text);
      && line != "" && line[0] != '#' && |line| <= 8192 && '\n' !in line && '\r' !in line
      && |Fields(line)| >= 2 && Fields(line)[0] !in ALLOWED_TYPES
    ensures ParseKey(text, p).Ok? || ParseKey(text, p) == Err(BadType) || ParseKey(text, p) == Err(BadKey)
  {
    hide Strip, Fields, Base64, Comment, Names;
  }

  /** Why a text is refused: it has no line that counts, or more than ten, or one that does
      not parse, and then the first of those says what is wrong. */
  lemma {:induction false} TextErrorIff(text: string, p: Platform)
    ensures var lines := RelevantOf(SplitLines(text));
            && (Normalised(text, p) == Err(NoKey) <==> lines == [])
            && (Normalised(text, p) == Err(TooMany) <==> |lines| > 10)
            && (Normalised(text, p).Ok? ==> forall i :: 0 <= i < |lines| ==> ParseKey(lines[i], p).Ok?)
            && (1 <= |lines| <= 10 && Normalised(text, p).Err? ==>
                  exists i :: 0 <= i < |lines| && ParseKey(lines[i], p) == Err(Normalised(text, p).error)
                              && forall j :: 0 <= j < i ==> ParseKey(lines[j], p).Ok?)
  {
    hide ParseKey, SplitLines, RelevantOf;
    var lines := RelevantOf(SplitLines(text));
    FirstBadLine(lines, p);
    forall i | 0 <= i < |lines|
      ensures ParseKey(lines[i], p).Ok? || ParseKey(lines[i], p) == Err(BadType) || ParseKey(lines[i], p) == Err(BadKey)
    {
      LineErrorIff(lines[i], p);
    }
  }

  lemma {:induction false} FirstBadLine(lines: seq<string>, p: Platform)
    ensures match ParseLines(lines, p)
            case Ok(_) => forall i :: 0 <= i < |lines| ==> ParseKey(lines[i], p).Ok?
            case Err(e) => exists i :: 0 <= i < |lines| && ParseKey(lines[i], p) == Err(e)
                             && forall j :: 0 <= j < i ==> ParseKey(lines[j], p).Ok?
  {
    hide ParseKey;
    if lines != [] {
      var front := lines[..|lines| - 1];
      FirstBadLine(front, p);
      assert forall i :: 0 <= i < |front| ==> front[i] == lines[i];
    }
  }

  /** What the privileged side asks of a stripped line: that it is laid out from a type of the
      nine, an encoded body and perhaps a comment of allowed characters. */
  ghost predicate Plain(line: string, k: Key, b: string, c: string, p: Platform) {
    && line == k.kind + (b + (k.body + (c + k.comment)))
    && Blank(b) && Blank(c) && b != "" && (k.comment == "" <==> c == "") && Trim(k.comment)
    && NoSpace(k.kind) && k.kind in ALLOWED_TYPES && NoSpace(k.body)
    && (exists letters, pad :: Encoded(k.body, letters, pad))
    && |k.comment| <= 200
    && forall i :: 0 <= i < |k.comment| ==> p.word(k.comment[i]) || k.comment[i] in ".@+/:- "
  }

  ghost predicate PlainLine(line: string, p: Platform) {
    exists k, b, c :: Plain(line, k, b, c, p)
  }

  lemma {:induction false} LinePassesIff(text: string, p: Platform)
    ensures CheckLine(Strip(text), p) == Nothing <==> PlainLine(Strip(text), p)
  {
    hide Base64, Fields, Strip, Encoded;
    var line := Strip(text);
    StripIsTrim(text);
    if CheckLine(line, p) == Nothing {
      var f := Fields(line);
      var k := Key(f[0], f[1], if |f| > 2 then f[2] else "");
      FieldsAreClean(line);
      Base64Iff(k.body);
      var b, c := LaidFromFields(line);
      assert Plain(line, k, b, c, p);
    }
    if k, b, c :| Plain(line, k, b, c, p) {
      Base64Iff(k.body);
      EncodedIsText(k.body);
      FieldsOfLaid(k, b, c);
    }
  }

  lemma EncodedIsText(s: string)
    requires exists letters, pad :: Encoded(s, letters, pad)
    ensures s != ""
  {
  }

  /** A line counts exactly when its first character that is not white space is not '#'. */
  lemma {:induction false} RelevantIff(line: string)
    ensures Relevant(line) <==>
      exists i :: 0 <= i < |line| && !IsSpace(line[i]) && line[i] != '#' && Blank(line[..i])
  {
    hide StripLeft, StripRight;
    var a, d := StripSplits(line);
    StripIsTrim(line);
    var mid := Strip(line);
    if mid != "" {
      assert line[|a|] == mid[0] && line[..|a|] == a;
    }
    if i :| 0 <= i < |line| && !IsSpace(line[i]) && line[i] != '#' && Blank(line[..i]) {
      assert Blank(a + d) && (mid == "" ==> line == a + d);
      if mid != "" {
        assert line == line[..i] + line[i..] && line == a + (mid + d);
        assert line[i..][0] == line[i];
        BlankIsUnique(line[..i], line[i..], a, mid + d);
      }
    }
  }

  const BREAKS: set<char> :=
    {'\n', '\U{0b}', '\U{0c}', '\r', '\U{1c}', '\U{1d}', '\U{1e}', '\U{85}', '\U{2028}', '\U{2029}'}

  const OTHER_SPACES: set<char> :=
    {'\t', '\U{1f}', ' ', '\U{a0}', '\U{1680}', '\U{2000}', '\U{2001}', '\U{2002}', '\U{2003}', '\U{2004}', '\U{2005}',
     '\U{2006}', '\U{2007}', '\U{2008}', '\U{2009}', '\U{200a}', '\U{202f}', '\U{205f}', '\U{3000}'}

  /** What ends a line, and what else is white space, character by character. */
  lemma BreaksAndSpaces(c: char)
    ensures IsBreak(c) <==> c in BREAKS
    ensures IsSpace(c) <==> c in BREAKS || c in OTHER_SPACES
  {
  }

  /** Lines joined again: each is followed by one break, a carriage return with its line feed
      counting as one, except that the last need not be. */
  predicate Rejoins(s: string, lines: seq<string>) {
    if lines == [] then s == ""
    else
      && NoBreak(lines[0]) && lines[0] <= s
      && var rest := s[|lines[0]|..];
         || (rest == "" && lines[0] != "" && |lines| == 1)
         || ("\r\n" <= rest && Rejoins(rest[2..], lines[1..]))
         || (rest != "" && IsBreak(rest[0]) && !("\r\n" <= rest) && Rejoins(rest[1..], lines[1..]))
  }

  lemma {:induction false} SplitRejoins(s: string)
    ensures Rejoins(s, SplitLines(s))
  {
    hide Rejoins, IsBreak, SplitLines;
    if s == "" {
      NothingRejoins();
    } else {
      var n := BreakAt(s);
      SplitStep(s);
      if n == |s| {
        LastRejoins(s);
      } else {
        var skip := if s[n] == '\r' && n + 1 < |s| && s[n + 1] == '\n' then 2 else 1;
        SplitRejoins(s[n + skip..]);
        OneMoreRejoins(s, n, skip, SplitLines(s[n + skip..]));
      }
    }
  }

  lemma SplitStep(s: string)
    requires s != ""
    ensures var n := BreakAt(s);
            if n == |s| then SplitLines(s) == [s]
            else
              var skip := if s[n] == '\r' && n + 1 < |s| && s[n + 1] == '\n' then 2 else 1;
              SplitLines(s) == [s[..n]] + SplitLines(s[n + skip..])
  {
    hide BreakAt;
  }

  lemma NothingRejoins()
    ensures Rejoins("", SplitLines(""))
  {
  }

  lemma LastRejoins(s: string)
    requires s != "" && NoBreak(s)
    ensures Rejoins(s, [s])
  {
  }

  lemma {:induction false} OneMoreRejoins(s: string, n: nat, skip: nat, lines: seq<string>)
    requires n < |s| && IsBreak(s[n]) && NoBreak(s[..n])
    requires skip == if s[n] == '\r' && n + 1 < |s| && s[n + 1] == '\n' then 2 else 1
    requires Rejoins(s[n + skip..], lines)
    ensures Rejoins(s, [s[..n]] + lines)
  {
    hide IsBreak, NoBreak;
    var all, rest := [s[..n]] + lines, s[n..];
    assert all[1..] == lines && rest[skip..] == s[n + skip..];
    assert "\r\n" <= rest <==> skip == 2;
  }

  /** Any clean and genuine key, printed, parses to its type, body and comment. */
  lemma {:induction false} CleanReparses(k: Key, p: Platform)
    requires Sane(p)
    ensures Clean(k, p) && Matches(k, p) ==>
      ParseKey(Line(k), p) == Ok(k) && NoBreak(Line(k)) && Relevant(Line(k))
  {
    hide Base64, Names, Fields, Strip, StripLeft, StripRight;
    if Clean(k, p) && Matches(k, p) {
      FieldsOfLine(k);
      TrimStrips(Line(k));
      LineHasNoBreak(k, p);
      assert forall i :: 0 <= i < |Line(k)| ==> !IsBreak(Line(k)[i]);
    }
  }

  lemma {:induction false} LineHasNoBreak(k: Key, p: Platform)
    requires Sane(p) && NoSpace(k.kind) && NoSpace(k.body) && (k.comment != "" ==> Comment(k.comment, p))
    ensures NoBreak(Line(k))
  {
    var s := Line(k);
    forall i | 0 <= i < |s| ensures !IsBreak(s[i]) {
      var a, b := |k.kind|, |k.kind| + 1 + |k.body|;
      assert s[i] == if i < a then k.kind[i] else if i == a then ' '
                     else if i < b then k.body[i - a - 1] else if i == b then ' ' else k.comment[i - b - 1];
    }
  }

  /** Every key of a parse came from some line that parses, and no body repeats. */
  lemma {:induction false} ParsedLines(lines: seq<string>, p: Platform)
    requires ParseLines(lines, p).Ok?
    ensures var out := ParseLines(lines, p).value;
            && |out| <= |lines| && (lines != [] ==> out != [])
            && (forall i :: 0 <= i < |out| ==> exists t :: t in lines && ParseKey(t, p) == Ok(out[i]))
            && (forall i, j :: 0 <= i < j < |out| ==> out[i].body != out[j].body)
            && (forall t :: t in lines ==> ParseKey(t, p).Ok?)
  {
    hide ParseKey;
    if lines != [] {
      var front, last := lines[..|lines| - 1], lines[|lines| - 1];
      ParsedLines(front, p);
      assert lines == front + [last];
    }
  }

  lemma {:induction false} ReparseAll(keys: seq<Key>, p: Platform)
    requires forall i :: 0 <= i < |keys| ==> ParseKey(Line(keys[i]), p) == Ok(keys[i])
    requires forall i, j :: 0 <= i < j < |keys| ==> keys[i].body != keys[j].body
    ensures ParseLines(LinesOf(keys), p) == Ok(keys)
  {
    hide ParseKey, Line;
    if keys != [] {
      var n := |keys| - 1;
      var front := keys[..n];
      ReparseAll(front, p);
      assert LinesOf(keys)[..n] == LinesOf(front);
      assert LinesOf(keys)[n] == Line(keys[n]);
      assert keys == front + [keys[n]];
      assert !HasBody(front, keys[n].body);
    }
  }

  lemma {:induction false} AllRelevant(lines: seq<string>)
    requires forall i :: 0 <= i < |lines| ==> Relevant(lines[i])
    ensures RelevantOf(lines) == lines
  {
    hide Relevant;
    if lines != [] {
      AllRelevant(lines[..|lines| - 1]);
    }
  }

  lemma {:induction false} RelevantAfterHeader(head: string, lines: seq<string>)
    requires !Relevant(head) && forall i :: 0 <= i < |lines| ==> Relevant(lines[i])
    ensures RelevantOf([head] + lines) == lines
  {
    hide Relevant;
    if lines == [] {
      assert ([head] + lines)[..0] == [];
    } else {
      var front := lines[..|lines| - 1];
      RelevantAfterHeader(head, front);
      assert ([head] + lines)[..|lines|] == [head] + front;
    }
  }

  lemma NoBreakConcat(a: string, b: string)
    requires NoBreak(a) && NoBreak(b)
    ensures NoBreak(a + b)
  {
  }

  lemma PhrasesHaveNoBreak()
    ensures NoBreak("# Managed by MMD-DEV.")
    ensures NoBreak(" Edits here are replaced")
    ensures NoBreak(" when keys change.")
  {
  }

  lemma {:induction false} HeaderIsAComment()
    ensures NoBreak(HEADER) && !Relevant(HEADER)
  {
    hide NoBreak;
    PhrasesHaveNoBreak();
    NoBreakConcat("# Managed by MMD-DEV.", " Edits here are replaced");
    NoBreakConcat("# Managed by MMD-DEV." + " Edits here are replaced", " when keys change.");
    assert HEADER[0] == '#' && " when keys change."[17] == '.' && HEADER[|HEADER| - 1] == '.';
    TrimStrips(HEADER);
  }

  /** What the control plane can produce: up to ten clean, genuine keys, no body twice. */
  ghost predicate Proper(keys: seq<Key>, p: Platform) {
    && 1 <= |keys| <= MAX_KEYS
    && (forall i :: 0 <= i < |keys| ==> Clean(keys[i], p) && Matches(keys[i], p))
    && (forall i, j :: 0 <= i < j < |keys| ==> keys[i].body != keys[j].body)
  }

  lemma {:induction false} NormalisedIsProper(text: string, p: Platform)
    ensures Normalised(text, p).Ok? ==> Proper(Normalised(text, p).value, p)
  {
    hide ParseKey, Clean, Matches, SplitLines, RelevantOf;
    if Normalised(text, p).Ok? {
      var lines, keys := RelevantOf(SplitLines(text)), Normalised(text, p).value;
      ParsedLines(lines, p);
      forall i | 0 <= i < |keys| ensures Clean(keys[i], p) && Matches(keys[i], p) {
        var t :| t in lines && ParseKey(t, p) == Ok(keys[i]);
        ParsedIsClean(t, p);
      }
    }
  }

  /** The printed file of any such list normalises to the list: the same types, bodies and
      comments in the same order. */
  lemma {:induction false} PrintedKeysParseBack(keys: seq<Key>, p: Platform)
    requires Sane(p)
    ensures Proper(keys, p) ==> Normalised(AuthorizedKeysBody(keys), p) == Ok(keys)
  {
    hide ParseKey, Clean, Matches, Line, Relevant, NoBreak, SplitLines, Joined, RelevantOf;
    if Proper(keys, p) {
      var printed := LinesOf(keys);
      forall i | 0 <= i < |keys|
        ensures ParseKey(Line(keys[i]), p) == Ok(keys[i]) && NoBreak(printed[i]) && Relevant(printed[i])
      {
        CleanReparses(keys[i], p);
      }
      ReparseAll(keys, p);
      HeaderIsAComment();
      assert AuthorizedKeysBody(keys) == HEADER + "\n" + (Joined(printed) + "\n");
      SplitFirst(HEADER, Joined(printed) + "\n");
      SplitJoined(printed);
      RelevantAfterHeader(HEADER, printed);
    }
  }

  /** Some text is accepted as `keys` exactly when the list is one to ten clean, genuine
      keys with distinct bodies, and then the file printed for them is such a text. */
  lemma {:induction false} AcceptedListsIff(keys: seq<Key>, p: Platform)
    requires Sane(p)
    ensures (exists text :: Normalised(text, p) == Ok(keys)) <==> Proper(keys, p)
    ensures (exists text :: Normalised(text, p) == Ok(keys)) <==> Normalised(AuthorizedKeysBody(keys), p) == Ok(keys)
  {
    hide Normalised, AuthorizedKeysBody, Proper;
    PrintedKeysParseBack(keys, p);
    if text :| Normalised(text, p) == Ok(keys) {
      NormalisedIsProper(text, p);
    }
  }

  lemma {:induction false} RealIsRelevant(lines: seq<string>)
    ensures RealOf(Stripped(lines)) == Stripped(RelevantOf(lines))
  {
    hide Strip;
    if lines != [] {
      var front, last := lines[..|lines| - 1], lines[|lines| - 1];
      RealIsRelevant(front);
      assert Stripped(lines)[..|lines| - 1] == Stripped(front);
      assert Stripped(RelevantOf(front) + [last]) == Stripped(RelevantOf(front)) + [Strip(last)];
    }
  }

  lemma {:induction false} ChecksPass(lines: seq<string>, p: Platform)
    requires forall i :: 0 <= i < |lines| ==> CheckLine(lines[i], p) == Nothing
    ensures CheckLines(lines, p) == Nothing
  {
    hide CheckLine;
    if lines != [] {
      ChecksPass(lines[1..], p);
    }
  }

  /** Whatever the control plane accepts, the privileged side's own check accepts. */
  lemma {:induction false} AcceptedTextPassesTheCheck(text: string, p: Platform)
    ensures Normalised(text, p).Ok? ==> Checked(text, p) == Nothing
  {
    hide ParseKey, CheckLine, Strip, Relevant, SplitLines;
    if Normalised(text, p).Ok? {
      var lines := RelevantOf(SplitLines(text));
      ParsedLines(lines, p);
      RealIsRelevant(SplitLines(text));
      var counted := Stripped(lines);
      forall i | 0 <= i < |counted| ensures CheckLine(counted[i], p) == Nothing {
        assert lines[i] in lines;
        ParsedIsClean(lines[i], p);
      }
      ChecksPass(counted, p);
    }
  }

  /** The privileged side complains that there is no key or that there are more than ten
      exactly when that is so, and passes a file exactly when each of its one to ten lines
      that count is plain. */
  lemma {:induction false} CheckPassesIff(body: string, p: Platform)
    ensures var lines := RelevantOf(SplitLines(body));
            && (Checked(body, p) == NoKeys <==> lines == [])
            && (Checked(body, p) == TooManyKeys <==> |lines| > 10)
            && (Checked(body, p) == Nothing <==>
                  1 <= |lines| <= 10
                  && forall i :: 0 <= i < |lines| ==> PlainLine(Strip(lines[i]), p))
  {
    hide SplitLines, RelevantOf, Strip, CheckLine, PlainLine;
    var lines := RelevantOf(SplitLines(body));
    RealIsRelevant(SplitLines(body));
    var counted := Stripped(lines);
    forall i | 0 <= i < |lines|
      ensures CheckLine(counted[i], p) == Nothing <==> PlainLine(Strip(lines[i]), p)
    {
      LinePassesIff(lines[i], p);
    }
    ComplaintIsALines(counted, p);
    if CheckLines(counted, p) == Nothing {
      forall i | 0 <= i < |lines| ensures CheckLine(counted[i], p) == Nothing {
        CheckedEach(counted, p, i);
      }
    } else if forall i :: 0 <= i < |counted| ==> CheckLine(counted[i], p) == Nothing {
      ChecksPass(counted, p);
    }
  }

  lemma {:induction false} ComplaintIsALines(lines: seq<string>, p: Platform)
    ensures CheckLines(lines, p) != NoKeys && CheckLines(lines, p) != TooManyKeys
  {
    hide Fields, Base64, Comment;
    if lines != [] {
      ComplaintIsALines(lines[1..], p);
    }
  }

  /** So the file printed for an accepted list passes it, too. */
  lemma {:induction false} PrintedKeysPassTheCheck(text: string, p: Platform)
    requires Sane(p)
    ensures Normalised(text, p).Ok? ==> Checked(AuthorizedKeysBody(Normalised(text, p).value), p) == Nothing
  {
    hide Normalised, Checked, AuthorizedKeysBody, Proper;
    if Normalised(text, p).Ok? {
      var keys := Normalised(text, p).value;
      NormalisedIsProper(text, p);
      PrintedKeysParseBack(keys, p);
      AcceptedTextPassesTheCheck(AuthorizedKeysBody(keys), p);
    }
  }

  /** A file that passes the check holds no line with options: each line that counts
      begins with an allowed type, followed by white space. */
  lemma {:induction false} CheckedLinesHaveNoOptions(body: string, p: Platform, i: nat)
    requires Checked(body, p) == Nothing && i < |RelevantOf(SplitLines(body))|
    ensures var line := Strip(RelevantOf(SplitLines(body))[i]);
            exists t :: t in ALLOWED_TYPES && t < line && IsSpace(line[|t|])
  {
    hide SplitLines, Strip, StripLeft;
    var lines := RelevantOf(SplitLines(body));
    RealIsRelevant(SplitLines(body));
    var counted := Stripped(lines);
    CheckedEach(counted, p, i);
    var line := counted[i];
    StripIsTrim(lines[i]);
    FieldsBegin(line);
  }

  lemma {:induction false} CheckedEach(lines: seq<string>, p: Platform, i: nat)
    requires CheckLines(lines, p) == Nothing && i < |lines|
    ensures CheckLine(lines[i], p) == Nothing
  {
    hide CheckLine;
    if i > 0 {
      CheckedEach(lines[1..], p, i - 1);
    }
  }

  lemma {:induction false} FieldsBegin(s: string)
    requires Trim(s) && |Fields(s)| >= 2
    ensures Fields(s)[0] < s && IsSpace(s[|Fields(s)[0]|])
  {
    assert StripLeft(s) == s;
    var n := SpaceAt(s);
    assert n < |s|;
  }
}
