/** The file manager's paths: normalising, joining, and the breadcrumb trail with the
    text that a customer reads off it. */
module Paths {

  // -------------------------------------------------------------------------- escaping

  function EscapeChar(c: char): string {
    if c == '&' then "&amp;"
    else if c == '<' then "&lt;"
    else if c == '>' then "&gt;"
    else if c == '\"' then "&quot;"
    else if c == '\'' then "&#39;"
    else [c]
  }

  function Escape(s: string): string {
    if s == "" then "" else Escape(s[..|s| - 1]) + EscapeChar(s[|s| - 1])
  }

  /** How a browser reads a text: the five entities stand for their characters. */
  function Read(s: string): string
    decreases |s|
  {
    if s == "" then ""
    else if s[0] != '&' then [s[0]] + Read(s[1..])
    else
      var (length, c) := Entity(s);
      [c] + Read(s[length..])
  }

  /** The entity that a text begins with, its length and its character. */
  function Entity(s: string): (r: (nat, char))
    requires s != ""
    ensures 1 <= r.0 <= |s|
  {
    if "&amp;" <= s then (5, '&')
    else if "&lt;" <= s then (4, '<')
    else if "&gt;" <= s then (4, '>')
    else if "&quot;" <= s then (6, '\"')
    else if "&#39;" <= s then (5, '\'')
    else (1, s[0])
  }

  /** An escaped text reads as the text. */
  lemma {:induction false} EscapedReadsBack(s: string)
    ensures Read(Escape(s)) == s
  {
    EscapedReadsOn(s, "");
    assert Escape(s) + "" == Escape(s) && s + "" == s;
  }

  lemma {:induction false} EscapedReadsOn(s: string, rest: string)
    ensures Read(Escape(s) + rest) == s + Read(rest)
  {
    hide Read, EscapeChar, Escape;
    if s == "" {
      EscapeNone(s);
      assert "" + rest == rest && "" + Read(rest) == Read(rest);
    } else {
      var front, c := s[..|s| - 1], s[|s| - 1];
      assert s == front + [c];
      EscapedReadsOn(front, EscapeChar(c) + rest);
      OneReadsOn(c, rest);
      EscapeStep(front, c);
      assert Escape(front) + EscapeChar(c) + rest == Escape(front) + (EscapeChar(c) + rest);
      assert front + [c] + Read(rest) == front + ([c] + Read(rest));
    }
  }

  lemma {:induction false} OneReadsOn(c: char, rest: string)
    ensures Read(EscapeChar(c) + rest) == [c] + Read(rest)
  {
    hide Entity;
    var s := EscapeChar(c) + rest;
    assert s[|EscapeChar(c)|..] == rest && s[0] == EscapeChar(c)[0];
    if |EscapeChar(c)| > 1 {
      EntityIsRead(c, rest);
    }
  }

  lemma {:induction false} EntityIsRead(c: char, rest: string)
    requires |EscapeChar(c)| > 1
    ensures Entity(EscapeChar(c) + rest) == (|EscapeChar(c)|, c)
  {
    var s := EscapeChar(c) + rest;
    assert EscapeChar(c) <= s && s[1] == EscapeChar(c)[1];
    BeginsAlike("&amp;", s);
    BeginsAlike("&lt;", s);
    BeginsAlike("&gt;", s);
    BeginsAlike("&quot;", s);
    BeginsAlike("&#39;", s);
  }

  lemma BeginsAlike(prefix: string, s: string)
    requires |prefix| > 1
    ensures prefix <= s ==> s[1] == prefix[1]
  {
  }

  // ----------------------------------------------------------------------- normalising

  /** What the dot of a pattern does not match. */
  predicate LineBreak(c: char) {
    c == '\n' || c == '\r' || c == '\U{2028}' || c == '\U{2029}'
  }

  predicate EndsInSlash(s: string) {
    s != "" && s[|s| - 1] == '/'
  }

  /** Every run of slashes as one slash. */
  function Squeeze(s: string): (r: string)
    ensures EndsInSlash(r) <==> EndsInSlash(s)
    ensures r == "" <==> s == ""
  {
    if s == "" then ""
    else
      var front, last := Squeeze(s[..|s| - 1]), s[|s| - 1];
      if last == '/' && EndsInSlash(front) then front else front + [last]
  }

  /** Drop a final slash if something that is not a line break comes before it. */
  function DropLast(s: string): string {
    if |s| >= 2 && EndsInSlash(s) && !LineBreak(s[|s| - 2]) then s[..|s| - 1] else s
  }

  function Rooted(s: string): string {
    if "/" <= s then s else "/" + s
  }

  function Normalize(path: string): string {
    Rooted(DropLast(Squeeze(if path == "" then "/" else path)))
  }

  function DropLeading(s: string): string {
    if s != "" && s[0] == '/' then DropLeading(s[1..]) else s
  }

  function Join(dir: string, name: string): string {
    var base := Normalize(dir);
    (if base == "/" then "" else base) + "/" + DropLeading(name)
  }

  // ------------------------------------------------------------------------- the trail

  /** The texts between the slashes, empty ones included. */
  function Split(s: string): (parts: seq<string>)
    ensures |parts| >= 1
  {
    if s == "" then [""]
    else
      Extend(Split(s[..|s| - 1]), s[|s| - 1])
  }

  /** One more character: a slash begins a new text, any other lengthens the last one. */
  function Extend(parts: seq<string>, c: char): (more: seq<string>)
    requires |parts| >= 1
    ensures |more| >= 1
  {
    if c == '/' then parts + [""] else parts[|parts| - 1 := parts[|parts| - 1] + [c]]
  }

  function NonEmpty(parts: seq<string>): seq<string> {
    if parts == [] then []
    else
      var front := NonEmpty(parts[..|parts| - 1]);
      if parts[|parts| - 1] == "" then front else front + [parts[|parts| - 1]]
  }

  function Parts(path: string): seq<string> {
    NonEmpty(Split(path))
  }

  /** The absolute path of a list of names; nothing for no names. */
  function PathOf(parts: seq<string>): string {
    if parts == [] then "" else PathOf(parts[..|parts| - 1]) + "/" + parts[|parts| - 1]
  }

  function Tag(inner: string): string {
    "<" + inner + ">"
  }

  const ROOT := Tag("a href=\"#\" data-go=\"/\" class=\"mono\"") + "/" + Tag("/a")
  const SEP := Tag("span class=\"dim\" style=\"margin:0 4px\"") + "/" + Tag("/span")

  /** A link to `target` that reads `name`. */
  function Crumb(target: string, name: string): string {
    Tag("a href=\"#\" data-go=\"" + Escape(target) + "\" dir=\"ltr\"") + Escape(name) + Tag("/a")
  }

  function Trail(parts: seq<string>): string {
    if parts == [] then ROOT
    else
      Trail(parts[..|parts| - 1]) + (if |parts| > 1 then SEP else "")
        + Crumb(PathOf(parts), parts[|parts| - 1])
  }

  method Crumbs(path: string) returns (html: string)
    ensures html == Trail(Parts(Normalize(path)))
  {
    var parts := Parts(Normalize(path));
    var acc := "";
    html := ROOT;
    for i := 0 to |parts|
      invariant acc == PathOf(parts[..i])
      invariant html == Trail(parts[..i])
    {
      assert parts[..i + 1][..i] == parts[..i];
      acc := acc + "/" + parts[i];
      if i > 0 {
        html := html + SEP;
      }
      assert i == 0 ==> html + "" == html;
      html := html + Crumb(acc, parts[i]);
    }
    assert parts[..|parts|] == parts;
  }

  /** Remove everything from a `<` to the next `>`, again and again. */
  function StripTags(s: string): string
    decreases |s|
  {
    if s == "" then ""
    else if s[0] == '<' && '>' in s[1..] then StripTags(AfterTag(s[1..]))
    else [s[0]] + StripTags(s[1..])
  }

  function AfterTag(s: string): (r: string)
    requires '>' in s
    ensures |r| < |s|
  {
    if s[0] == '>' then s[1..] else AfterTag(s[1..])
  }

  function CrumbsText(path: string): string {
    StripTags(Trail(Parts(Normalize(path))))
  }

  // ------------------------------------------------------------------ facts about slashes

  predicate Squeezed(s: string) {
    forall i :: 0 < i < |s| ==> !(s[i - 1] == '/' && s[i] == '/')
  }

  lemma {:induction false} SqueezeSqueezes(s: string)
    ensures Squeezed(Squeeze(s))
  {
    if s != "" {
      SqueezeSqueezes(s[..|s| - 1]);
    }
  }

  lemma {:induction false} SqueezedStays(s: string)
    requires Squeezed(s)
    ensures Squeeze(s) == s
  {
    if s != "" {
      var front := s[..|s| - 1];
      assert forall i :: 0 <= i < |front| ==> front[i] == s[i];
      SqueezedStays(front);
      assert s == front + [s[|s| - 1]];
    }
  }

  /** What a normal path looks like: rooted, no doubled slash, and no final slash unless
      it is the root or a line break comes before it. */
  predicate Normal(s: string) {
    && "/" <= s && Squeezed(s)
    && (EndsInSlash(s) ==> s == "/" || LineBreak(s[|s| - 2]))
  }

  lemma {:induction false} NormalizeIsNormal(path: string)
    ensures Normal(Normalize(path))
  {
    var q := Squeeze(if path == "" then "/" else path);
    SqueezeSqueezes(if path == "" then "/" else path);
    var d := DropLast(q);
    assert Squeezed(d);
    if !("/" <= d) {
      var r := "/" + d;
      assert d != "" && d[0] != '/';
      assert forall i :: 0 < i < |r| ==> r[i] == d[i - 1];
    }
  }

  /** Normalising is idempotent, on every path; what is left alone is what is normal. */
  lemma {:induction false} NormalizeTwice(path: string)
    ensures Normalize(Normalize(path)) == Normalize(path)
    ensures Normalize(path) == path <==> Normal(path)
  {
    hide Squeeze;
    NormalizeIsNormal(path);
    SqueezedStays(Normalize(path));
    if Normal(path) {
      SqueezedStays(path);
    }
  }

  lemma ExtendConcat(a: seq<string>, b: seq<string>, c: char)
    requires |b| >= 1
    ensures Extend(a + b, c) == a + Extend(b, c)
  {
  }

  lemma {:induction false} SplitConcat(a: string, b: string)
    ensures Split(a + "/" + b) == Split(a) + Split(b)
  {
    var s := a + "/" + b;
    if b == "" {
      assert s[..|s| - 1] == a;
    } else {
      hide Extend;
      var front := b[..|b| - 1];
      SplitConcat(a, front);
      assert s[..|s| - 1] == a + "/" + front && s[|s| - 1] == b[|b| - 1];
      ExtendConcat(Split(a), Split(front), b[|b| - 1]);
    }
  }

  lemma {:induction false} NonEmptyConcat(a: seq<string>, b: seq<string>)
    ensures NonEmpty(a + b) == NonEmpty(a) + NonEmpty(b)
  {
    if b == [] {
      assert a + b == a;
    } else {
      NonEmptyConcat(a, b[..|b| - 1]);
      assert (a + b)[..|a + b| - 1] == a + b[..|b| - 1];
    }
  }

  /** A slash divides the names of a path. */
  lemma {:induction false} PartsConcat(a: string, b: string)
    ensures Parts(a + "/" + b) == Parts(a) + Parts(b)
  {
    SplitConcat(a, b);
    NonEmptyConcat(Split(a), Split(b));
  }

  lemma {:induction false} PartsOfNothing()
    ensures Parts("") == []
  {
    assert [""][..0] == [];
  }

  lemma {:induction false} PartsWithSlash(s: string)
    ensures Parts(s + "/") == Parts(s) && Parts("/" + s) == Parts(s)
  {
    PartsOfNothing();
    PartsConcat(s, "");
    PartsConcat("", s);
    assert s + "/" + "" == s + "/" && "" + "/" + s == "/" + s;
  }

  lemma {:induction false} SplitLast(s: string)
    ensures Split(s)[|Split(s)| - 1] == "" <==> s == "" || EndsInSlash(s)
  {
  }

  /** Adding a character that is not a slash to two paths with the same names, of which
      both or neither end in a slash, keeps their names the same. */
  lemma {:induction false} PartsGrow(s: string, c: char)
    requires c != '/'
    ensures var p := Parts(s);
            Parts(s + [c]) == if s == "" || EndsInSlash(s) then p + [[c]] else p[..|p| - 1] + [p[|p| - 1] + [c]]
    ensures s != "" && !EndsInSlash(s) ==> Parts(s) != []
  {
    assert (s + [c])[..|s|] == s;
    var f := Split(s);
    var n := |f| - 1;
    SplitLast(s);
    var g := f[n := f[n] + [c]];
    assert Split(s + [c]) == g;
    assert g[..n] == f[..n] && g[n] == f[n] + [c];
    assert NonEmpty(g) == NonEmpty(f[..n]) + [f[n] + [c]];
    if f[n] == "" {
      assert f[n] + [c] == [c];
    } else {
      assert NonEmpty(f)[..|NonEmpty(f)| - 1] == NonEmpty(f[..n]);
    }
  }

  lemma {:induction false} SqueezeKeepsParts(s: string)
    ensures Parts(Squeeze(s)) == Parts(s)
  {
    if s != "" {
      var front, last := s[..|s| - 1], s[|s| - 1];
      SqueezeKeepsParts(front);
      assert s == front + [last];
      if last == '/' {
        PartsWithSlash(front);
        PartsWithSlash(Squeeze(front));
      } else {
        PartsGrow(front, last);
        PartsGrow(Squeeze(front), last);
      }
    }
  }

  /** Normalising keeps the names. */
  lemma {:induction false} NormalizeKeepsParts(path: string)
    ensures Parts(Normalize(path)) == Parts(path)
  {
    hide Parts, Squeeze;
    var p := if path == "" then "/" else path;
    var q := Squeeze(p);
    SqueezeKeepsParts(p);
    RootHasNoParts();
    PartsOfNothing();
    var d := DropLast(q);
    assert q == d || q == d + "/";
    PartsWithSlash(d);
  }

  predicate IsItsParts(s: string) {
    s == PathOf(Parts(s)) + (if EndsInSlash(s) then "/" else "")
  }

  lemma {:induction false} OneMoreCharacter(s: string, c: char)
    requires s != "" && IsItsParts(s) && !(EndsInSlash(s) && c == '/')
    ensures IsItsParts(s + [c])
  {
    hide Parts, PathOf;
    if c == '/' {
      PartsWithSlash(s);
      assert s + [c] == s + "/";
    } else {
      PartsGrow(s, c);
      LastPartGrows(Parts(s), c);
    }
  }

  /** A squeezed rooted path is its names, each after a slash, and its final slash. */
  lemma {:induction false} PathIsItsParts(s: string)
    requires "/" <= s && Squeezed(s)
    ensures IsItsParts(s)
  {
    hide IsItsParts;
    var front, last := s[..|s| - 1], s[|s| - 1];
    assert s == front + [last];
    if front == "" {
      RootIsItsParts();
      assert s == "/";
    } else {
      assert forall i :: 0 <= i < |front| ==> front[i] == s[i];
      PathIsItsParts(front);
      OneMoreCharacter(front, last);
    }
  }

  lemma {:induction false} RootIsItsParts()
    ensures IsItsParts("/")
  {
    RootHasNoParts();
  }

  lemma {:induction false} LastPartGrows(parts: seq<string>, c: char)
    ensures PathOf(parts + [[c]]) == PathOf(parts) + "/" + [c]
    ensures parts != [] ==>
      PathOf(parts[..|parts| - 1] + [parts[|parts| - 1] + [c]]) == PathOf(parts) + [c]
  {
    assert (parts + [[c]])[..|parts|] == parts;
    if parts != [] {
      var front := parts[..|parts| - 1];
      var more := front + [parts[|parts| - 1] + [c]];
      assert more[..|more| - 1] == front;
      assert PathOf(front) + "/" + (parts[|parts| - 1] + [c]) == PathOf(front) + "/" + parts[|parts| - 1] + [c];
    }
  }

  /** Joining adds the child's names to the directory's. */
  lemma {:induction false} JoinAddsParts(dir: string, name: string)
    ensures Parts(Join(dir, name)) == Parts(dir) + Parts(name)
  {
    var base := Normalize(dir);
    NormalizeKeepsParts(dir);
    DropLeadingKeepsParts(name);
    PartsOfNothing();
    PartsWithSlash("");
    assert "" + "/" == "/";
    PartsConcat(if base == "/" then "" else base, DropLeading(name));
  }

  lemma {:induction false} DropLeadingKeepsParts(s: string)
    ensures Parts(DropLeading(s)) == Parts(s)
  {
    if s != "" && s[0] == '/' {
      DropLeadingKeepsParts(s[1..]);
      assert s == "/" + s[1..];
      PartsWithSlash(s[1..]);
    }
  }

  /** The directory ends in a line break and slashes, which normalising leaves there. */
  predicate KeepsSlash(path: string) {
    var q := Squeeze(path);
    |q| >= 2 && EndsInSlash(q) && LineBreak(q[|q| - 2])
  }

  lemma {:induction false} FinalSlashIff(path: string)
    ensures EndsInSlash(Normalize(path)) && Normalize(path) != "/" <==> KeepsSlash(path)
  {
    NormalizeIsNormal(path);
    SqueezeSqueezes(path);
    var q := Squeeze(path);
    if |q| >= 2 && EndsInSlash(q) && !LineBreak(q[|q| - 2]) {
      assert !EndsInSlash(DropLast(q)) && DropLast(q) != "";
    }
  }

  /** Joining doubles a slash exactly when the child has a doubled one of its own or the
      directory keeps its final slash. */
  lemma {:induction false} JoinDoublesIff(dir: string, name: string)
    ensures Squeezed(Join(dir, name)) <==> Squeezed(DropLeading(name)) && !KeepsSlash(dir)
  {
    NormalizeIsNormal(dir);
    FinalSlashIff(dir);
    LeadingIsDropped(name);
    var base, child := if Normalize(dir) == "/" then "" else Normalize(dir), DropLeading(name);
    SqueezedConcat(base, child);
  }

  lemma {:induction false} LeadingIsDropped(s: string)
    ensures DropLeading(s) != "" ==> DropLeading(s)[0] != '/'
  {
    if s != "" && s[0] == '/' {
      LeadingIsDropped(s[1..]);
    }
  }

  lemma {:induction false} SqueezedConcat(a: string, b: string)
    requires b != "" ==> b[0] != '/'
    ensures Squeezed(a + "/" + b) <==> Squeezed(a) && Squeezed(b) && !EndsInSlash(a)
  {
    var s, n := a + "/" + b, |a|;
    assert forall i :: 0 <= i < n ==> s[i] == a[i];
    assert s[n] == '/';
    assert forall i :: 0 <= i < |b| ==> s[n + 1 + i] == b[i];
    if Squeezed(s) {
      forall i | 0 < i < |b| ensures !(b[i - 1] == '/' && b[i] == '/') {
        assert !(s[n + i] == '/' && s[n + 1 + i] == '/');
      }
    } else {
      var i :| 0 < i < |s| && s[i - 1] == '/' && s[i] == '/';
      if i > n + 1 {
        assert b[i - n - 2] == '/' && b[i - n - 1] == '/';
      }
    }
  }

  // ---------------------------------------------------------------------- facts about tags

  /** Nothing that follows `s` changes how its tags are removed, and `text` is left. */
  ghost predicate Leaves(s: string, text: string) {
    forall t :: StripTags(s + t) == text + StripTags(t)
  }

  lemma {:induction false} LeavesConcat(a: string, ta: string, b: string, tb: string)
    requires Leaves(a, ta) && Leaves(b, tb)
    ensures Leaves(a + b, ta + tb)
  {
    hide StripTags;
    forall t ensures StripTags(a + b + t) == ta + tb + StripTags(t) {
      assert a + b + t == a + (b + t);
      assert ta + (tb + StripTags(t)) == ta + tb + StripTags(t);
    }
  }

  lemma {:induction false} PlainText(s: string)
    requires '<' !in s
    ensures Leaves(s, s)
  {
    forall t ensures StripTags(s + t) == s + StripTags(t) {
      PlainTextBefore(s, t);
    }
  }

  lemma {:induction false} PlainTextBefore(s: string, t: string)
    requires '<' !in s
    ensures StripTags(s + t) == s + StripTags(t)
  {
    if s == "" {
      assert s + t == t;
    } else {
      assert s[0] in s && forall c :: c in s[1..] ==> c in s;
      assert (s + t)[1..] == s[1..] + t;
      PlainTextBefore(s[1..], t);
      assert s == [s[0]] + s[1..];
    }
  }

  lemma {:induction false} TagIsRemoved(inner: string)
    requires '>' !in inner
    ensures Leaves(Tag(inner), "")
  {
    forall t ensures StripTags(Tag(inner) + t) == "" + StripTags(t) {
      var s := Tag(inner) + t;
      assert s[1..] == inner + ">" + t;
      assert s[1..][|inner|] == '>';
      AfterTagSkips(inner, t);
    }
  }

  lemma {:induction false} AfterTagSkips(inner: string, t: string)
    requires '>' !in inner
    ensures '>' in inner + ">" + t && AfterTag(inner + ">" + t) == t
  {
    var s := inner + ">" + t;
    assert s[|inner|] == '>';
    if inner == "" {
      assert s == ">" + t;
    } else {
      assert inner[0] in inner && forall c :: c in inner[1..] ==> c in inner;
      assert s[1..] == inner[1..] + ">" + t;
      AfterTagSkips(inner[1..], t);
    }
  }

  lemma EscapeCharIsPlain(c: char)
    ensures '<' !in EscapeChar(c) && '>' !in EscapeChar(c)
    ensures '\"' !in EscapeChar(c) && '\'' !in EscapeChar(c)
  {
  }

  /** An escaped text can neither open a tag nor end an attribute. */
  lemma {:induction false} EscapedIsPlain(s: string)
    ensures '<' !in Escape(s) && '>' !in Escape(s)
    ensures '\"' !in Escape(s) && '\'' !in Escape(s)
  {
    hide EscapeChar;
    if s != "" {
      EscapedIsPlain(s[..|s| - 1]);
      EscapeCharIsPlain(s[|s| - 1]);
    }
  }

  lemma {:induction false} EscapeStep(s: string, c: char)
    ensures Escape(s + [c]) == Escape(s) + EscapeChar(c)
  {
    assert (s + [c])[..|s|] == s;
  }

  lemma EscapeNone(s: string)
    requires s == ""
    ensures Escape(s) == ""
  {
  }

  lemma {:induction false} EscapeConcat(a: string, b: string)
    ensures Escape(a + b) == Escape(a) + Escape(b)
  {
    hide Escape, EscapeChar;
    if b == "" {
      assert a + b == a;
      EscapeNone(b);
    } else {
      var front, c := b[..|b| - 1], b[|b| - 1];
      EscapeConcat(a, front);
      EscapeStep(a + front, c);
      EscapeStep(front, c);
      assert b == front + [c] && a + b == a + front + [c];
    }
  }

  lemma {:induction false} Tagged(open: string, text: string, close: string)
    requires '>' !in open && '<' !in text && '>' !in close
    ensures Leaves(Tag(open) + text + Tag(close), text)
  {
    hide Leaves, Tag;
    TagIsRemoved(open);
    PlainText(text);
    TagIsRemoved(close);
    LeavesConcat(Tag(open), "", text, text);
    LeavesConcat(Tag(open) + text, "" + text, Tag(close), "");
    assert "" + text + "" == text;
  }

  lemma {:induction false} CrumbReads(target: string, name: string)
    ensures Leaves(Crumb(target, name), Escape(name))
  {
    hide Leaves, Tag, Escape;
    var before, after := "a href=\"#\" data-go=\"", "\" dir=\"ltr\"";
    EscapedIsPlain(target);
    EscapedIsPlain(name);
    assert '>' !in before && '>' !in after;
    Tagged(before + Escape(target) + after, Escape(name), "/a");
  }

  lemma {:induction false} RootReads()
    ensures Leaves(ROOT, "/")
  {
    hide Leaves, Tag;
    Tagged("a href=\"#\" data-go=\"/\" class=\"mono\"", "/", "/a");
  }

  lemma {:induction false} SepReads()
    ensures Leaves(SEP, "/")
  {
    hide Leaves, Tag;
    Tagged("span class=\"dim\" style=\"margin:0 4px\"", "/", "/span");
  }

  lemma {:induction false} EscapedSlash()
    ensures Escape("/") == "/"
  {
    assert "/"[..0] == "";
  }

  /** The trail reads as the escaped path of its names. */
  lemma {:induction false} TrailReads(parts: seq<string>)
    ensures Leaves(Trail(parts), Escape(if parts == [] then "/" else PathOf(parts)))
  {
    hide Leaves, Crumb, Escape, ROOT, SEP;
    EscapedSlash();
    if parts == [] {
      RootReads();
    } else {
      var front, last := parts[..|parts| - 1], parts[|parts| - 1];
      var crumb, before := Crumb(PathOf(parts), last), Escape(PathOf(front)) + "/";
      TrailReads(front);
      CrumbReads(PathOf(parts), last);
      EscapeConcat(PathOf(front) + "/", last);
      EscapeConcat(PathOf(front), "/");
      if front == [] {
        EscapeNothing();
        LeavesConcat(Trail(front), before, crumb, Escape(last));
        assert Trail(front) + "" == Trail(front);
      } else {
        SepReads();
        LeavesConcat(Trail(front), Escape(PathOf(front)), SEP, "/");
        LeavesConcat(Trail(front) + SEP, before, crumb, Escape(last));
      }
    }
  }

  lemma EscapeNothing()
    ensures Escape("") + "/" == "/"
  {
  }

  lemma {:induction false} ReadsWhatItLeaves(s: string, text: string)
    requires Leaves(s, text)
    ensures StripTags(s) == text
  {
    assert s + "" == s && text + "" == text;
    assert StripTags(s + "") == text + StripTags("");
  }

  /** What the customer reads is the escaped normalised path, except for a path that
      keeps a final slash after a line break: then, and only then, the slash is lost. */
  lemma {:induction false} TrailIsThePathIff(path: string)
    ensures CrumbsText(path) == Escape(Normalize(path)) <==> !KeepsSlash(path)
    ensures KeepsSlash(path) ==> CrumbsText(path) + "/" == Escape(Normalize(path))
  {
    hide Leaves, Trail, Escape, Normalize, KeepsSlash, PathOf;
    var n := Normalize(path);
    var parts := Parts(n);
    TrailReads(parts);
    ReadsWhatItLeaves(Trail(parts), Escape(if parts == [] then "/" else PathOf(parts)));
    NormalizeIsNormal(path);
    PathIsItsParts(n);
    FinalSlashIff(path);
    EscapedSlash();
    if KeepsSlash(path) {
      EscapeConcat(PathOf(parts), "/");
      KeptNotEmpty(n);
    } else if n == "/" {
      RootHasNoParts();
    } else {
      NonRootHasParts(n);
      assert n == PathOf(parts);
    }
  }

  lemma {:induction false} RootHasNoParts()
    ensures Parts("/") == []
  {
    PartsOfNothing();
    PartsWithSlash("");
    assert "" + "/" == "/";
  }

  lemma PathOfNone(parts: seq<string>)
    ensures parts == [] ==> PathOf(parts) == "" && PathOf(parts) + "/" == "/"
  {
  }

  lemma {:induction false} KeptNotEmpty(n: string)
    requires Normal(n) && EndsInSlash(n) && n != "/"
    ensures Parts(n) != []
  {
    PathIsItsParts(n);
    PathOfNone(Parts(n));
  }

  lemma {:induction false} NonRootHasParts(n: string)
    requires Normal(n) && n != "/" && !EndsInSlash(n)
    ensures Parts(n) != []
  {
    PathIsItsParts(n);
    PathOfNone(Parts(n));
  }
}
