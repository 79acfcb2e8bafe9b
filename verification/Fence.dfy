/** Nonce-keyed fences around untrusted prompt content, and a reader that follows the announced
    protocol: a block ends only at a closing delimiter that carries the nonce its opening tag
    announced; every other boundary-looking text is content. */
module Fence {

  /** A prompt: trusted text, then a fenced block, and so on, ending in trusted text. */
  datatype Doc = End(text: string) | Fenced(text: string, source: string, content: string, rest: Doc)

  /** `_fence_nonce`: sixteen hex digits that depend on label and content. */
  type Nonces = (string, string) -> string

  predicate IsHex(c: char) {
    '0' <= c <= '9' || 'a' <= c <= 'f'
  }

  ghost predicate SixteenHex(nonces: Nonces) {
    forall l, c :: |nonces(l, c)| == 16 && forall i :: 0 <= i < 16 ==> IsHex(nonces(l, c)[i])
  }

  const OPENER := "<untrusted_content source=\""
  const BEGIN := "\nBEGIN_UNTRUSTED_CONTENT:"

  /** `<untrusted_content source="..." nonce="...">` and the two lines after it. */
  function Header(source: string, nonce: string): string {
    OPENER + (source + (['"'] + (" nonce=" + (['"'] + (nonce + (['"'] + HeaderEnd(source, nonce)))))))
  }

  function HeaderEnd(source: string, nonce: string): string {
    ">" + (BEGIN + (source + (":" + (nonce + ("\n<" + (source + ">\n"))))))
  }

  /** The closing delimiters that carry this nonce. */
  function Closers(source: string, nonce: string): seq<string> {
    ["</" + source + ":" + nonce + ">", "END_UNTRUSTED_CONTENT:" + source + ":" + nonce,
     "</untrusted_content:" + nonce + ">"]
  }

  function Tail(source: string, nonce: string): string {
    var c := Closers(source, nonce);
    c[0] + "\n" + c[1] + "\n" + c[2]
  }

  /** `wrap_untrusted_content`. */
  function Wrap(nonces: Nonces, source: string, content: string): string {
    var nonce := nonces(source, content);
    Header(source, nonce) + content + "\n" + Tail(source, nonce)
  }

  function Render(nonces: Nonces, doc: Doc): string
    decreases doc
  {
    match doc
    case End(text) => text
    case Fenced(text, source, content, rest) => text + Wrap(nonces, source, content) + Render(nonces, rest)
  }

  // ------------------------------------------------------------------ the reader

  /** Where the first of `pats` starts in `s`; |s| when none does. */
  function First(s: string, pats: seq<string>): (n: nat)
    ensures n <= |s|
    decreases |s|
  {
    if s == "" || exists k :: 0 <= k < |pats| && pats[k] <= s then 0 else 1 + First(s[1..], pats)
  }

  /** The text before the first `stop`, and what comes after it. */
  function Before(s: string, stop: char): (string, string)
    decreases |s|
  {
    if s == "" || s[0] == stop then ("", if s == "" then "" else s[1..])
    else
      var (head, rest) := Before(s[1..], stop);
      ([s[0]] + head, rest)
  }

  /** The label and the nonce announced by a header. */
  function Announced(s: string): (string, string)
    requires OPENER <= s
  {
    var (source, s1) := Before(s[|OPENER|..], '"');
    var (_, s2) := Before(s1, '"');
    var (nonce, _) := Before(s2, '"');
    (source, nonce)
  }

  /** A complete header begins `s`: an opening tag, its BEGIN marker and its inner tag, which
      agree on label and nonce. */
  predicate Opens(s: string) {
    OPENER <= s && var (source, nonce) := Announced(s); Header(source, nonce) <= s
  }

  /** Where the first complete header starts in `s`; |s| when none does. */
  function FirstHeader(s: string): (n: nat)
    ensures n <= |s|
    decreases |s|
  {
    if s == "" || Opens(s) then 0 else 1 + FirstHeader(s[1..])
  }

  lemma {:induction false} FirstHeaderIs(s: string)
    ensures FirstHeader(s) < |s| ==> Opens(s[FirstHeader(s)..])
    ensures forall i :: 0 <= i < FirstHeader(s) ==> !Opens(s[i..])
    decreases |s|
  {
    assert s[0..] == s;
    if s != "" && !Opens(s) {
      FirstHeaderIs(s[1..]);
      assert forall i :: 1 <= i <= |s| ==> s[i..] == s[1..][i - 1..];
    }
  }

  /** Drops the line break that precedes a closing delimiter. */
  function Chomp(s: string): string {
    if s != "" && s[|s| - 1] == '\n' then s[..|s| - 1] else s
  }

  /** Where reading goes on after the delimiter at the start of `s`: past the whole tail of
      the block when it is there, else past that delimiter alone. */
  function Skip(s: string, source: string, nonce: string): (rest: string)
    ensures |rest| <= |s|
  {
    var c := Closers(source, nonce);
    if Tail(source, nonce) <= s then s[|Tail(source, nonce)|..]
    else if c[0] <= s then s[|c[0]|..]
    else if c[1] <= s then s[|c[1]|..]
    else if c[2] <= s then s[|c[2]|..]
    else ""
  }

  /** An opening tag that no complete header follows is text like any other. */
  function Read(s: string): Doc
    decreases |s|
  {
    var at := FirstHeader(s);
    FirstHeaderIs(s);
    if at == |s| then End(s)
    else
      var (source, nonce) := Announced(s[at..]);
      var body := s[at..][|Header(source, nonce)|..];
      var close := First(body, Closers(source, nonce));
      Fenced(s[..at], source, Chomp(body[..close]), Read(Skip(body[close..], source, nonce)))
  }

  // ------------------------------------------------------------------ searching

  ghost predicate Occurs(s: string, pat: string) {
    exists i :: 0 <= i <= |s| && pat <= s[i..]
  }

  lemma {:induction false} FirstIs(s: string, pats: seq<string>)
    ensures First(s, pats) < |s| ==> exists k :: 0 <= k < |pats| && pats[k] <= s[First(s, pats)..]
    ensures forall i, k :: 0 <= i < First(s, pats) && 0 <= k < |pats| ==> !(pats[k] <= s[i..])
    decreases |s|
  {
    if s != "" && !exists k :: 0 <= k < |pats| && pats[k] <= s {
      FirstIs(s[1..], pats);
      assert forall i :: 1 <= i <= |s| ==> s[i..] == s[1..][i - 1..];
      assert s[0..] == s;
    } else {
      assert s[0..] == s;
    }
  }

  lemma {:induction false} FirstUnique(s: string, pats: seq<string>, n: nat, k: nat)
    requires n < |s| && k < |pats| && pats[k] <= s[n..]
    requires forall i, j :: 0 <= i < n && 0 <= j < |pats| ==> !(pats[j] <= s[i..])
    ensures First(s, pats) == n
    decreases n
  {
    FirstIs(s, pats);
  }

  lemma PrefixAt(s: string, pat: string, j: nat)
    requires pat <= s && j < |pat|
    ensures pat[j] == s[j]
  {}

  /** A pattern cannot start inside `text` and end beyond it when what follows begins with a
      character that the pattern holds only in front. */
  lemma NoStraddle(text: string, rest: string, pat: string, stop: char, i: nat)
    requires i < |text| && pat <= (text + rest)[i..]
    requires rest != "" && rest[0] == stop && forall j :: 1 <= j < |pat| ==> pat[j] != stop
    ensures Occurs(text, pat)
  {
    var s := text + rest;
    if i + |pat| > |text| {
      PrefixAt(s[i..], pat, |text| - i);
    }
    assert pat == s[i..][..|pat|] == text[i..][..|pat|];
  }

  // ------------------------------------------------------------------ one block

  /** A label that its own header announces unambiguously. */
  predicate Clean(source: string) {
    '"' !in source && '\n' !in source
  }

  /** The content holds none of the closing delimiters that carry its own nonce. */
  ghost predicate SelfClosed(nonces: Nonces, source: string, content: string) {
    exists k :: 0 <= k < 3 && Occurs(content, Closers(source, nonces(source, content))[k])
  }

  lemma {:induction false} BeforeIs(head: string, stop: char, rest: string)
    requires stop !in head
    ensures Before(head + ([stop] + rest), stop) == (head, rest)
  {
    var s := head + ([stop] + rest);
    if head == "" {
      assert s[1..] == rest;
    } else {
      assert s[1..] == head[1..] + ([stop] + rest);
      assert head == [head[0]] + head[1..] && head[0] in head;
      BeforeIs(head[1..], stop, rest);
    }
  }

  lemma AnnouncedIs(source: string, nonce: string, more: string)
    requires '"' !in source && '"' !in nonce
    ensures OPENER <= Header(source, nonce) + more
    ensures Announced(Header(source, nonce) + more) == (source, nonce)
  {
    hide HeaderEnd, Before;
    var s3 := HeaderEnd(source, nonce) + more;
    var s2 := nonce + (['"'] + s3);
    var s1 := " nonce=" + (['"'] + s2);
    var s0 := source + (['"'] + s1);
    assert Header(source, nonce) + more == OPENER + s0;
    BeforeIs(source, '"', s1);
    BeforeIs(" nonce=", '"', s2);
    BeforeIs(nonce, '"', s3);
  }

  lemma ClosersHaveNoBreak(source: string, nonce: string, k: nat)
    requires k < 3 && Clean(source) && '\n' !in nonce
    ensures var c := Closers(source, nonce)[k]; c != "" && c[0] != '\n' && '\n' !in c
  {}

  lemma HexIsPlain(nonces: Nonces, source: string, content: string)
    requires SixteenHex(nonces)
    ensures '"' !in nonces(source, content) && '\n' !in nonces(source, content)
  {
    var n := nonces(source, content);
    assert forall i :: 0 <= i < |n| ==> IsHex(n[i]);
  }

  // ------------------------------------------------------------------ where a header stands

  /** A complete header starts somewhere in the text. */
  ghost predicate HoldsHeader(text: string) {
    exists i :: 0 <= i < |text| && Opens(text[i..])
  }

  /** The first line of a header, short of its last character. */
  function Line(source: string, nonce: string): string {
    OPENER + (source + (['"'] + (" nonce=" + (['"'] + (nonce + ['"'])))))
  }

  lemma HeaderIs(source: string, nonce: string)
    ensures Header(source, nonce) == Line(source, nonce) + HeaderEnd(source, nonce)
  {
    hide HeaderEnd;
  }

  function Quotes(s: string): nat {
    if s == "" then 0 else (if s[0] == '"' then 1 else 0) + Quotes(s[1..])
  }

  lemma {:induction false} QuotesAdd(a: string, b: string)
    ensures Quotes(a + b) == Quotes(a) + Quotes(b)
  {
    if a == "" {
      assert a + b == b;
    } else {
      assert (a + b)[1..] == a[1..] + b;
      QuotesAdd(a[1..], b);
    }
  }

  lemma {:induction false} NoQuotes(s: string)
    requires '"' !in s
    ensures Quotes(s) == 0
  {
    if s != "" {
      assert s[0] in s;
      NoQuotes(s[1..]);
    }
  }

  lemma QuoteAtEnd(s: string)
    requires s != "" && s[|s| - 1] == '"' && forall j :: 0 <= j < |s| - 1 ==> s[j] != '"'
    ensures Quotes(s) == 1
  {
    var n := |s| - 1;
    NoQuotes(s[..n]);
    QuotesAdd(s[..n], s[n..]);
    assert s == s[..n] + s[n..] && s[n..] == ['"'];
    assert Quotes(['"']) == 1;
  }

  lemma OpenerShape()
    ensures OPENER[|OPENER| - 1] == '"' && forall j :: 0 <= j < |OPENER| - 1 ==> OPENER[j] != '"'
  {}

  lemma PieceQuotes()
    ensures Quotes(OPENER) == 1 && Quotes(['"']) == 1 && Quotes(" nonce=") == 0
  {
    OpenerShape();
    hide Quotes;
    QuoteAtEnd(OPENER);
    QuoteAtEnd(['"']);
    NoQuotes(" nonce=");
  }

  /** A header has four quotes, all in its first line. */
  lemma FourQuotes(source: string, nonce: string)
    requires '"' !in source && '"' !in nonce
    ensures Quotes(Line(source, nonce)) == Quotes(Header(source, nonce)) == 4
  {
    PieceQuotes();
    hide Quotes;
    NoQuotes(source);
    NoQuotes(nonce);
    HeaderIs(source, nonce);
    EndIsPlain(source, nonce);
    NoQuotes(HeaderEnd(source, nonce));
    QuotesAdd(Line(source, nonce), HeaderEnd(source, nonce));
    hide HeaderEnd;
    var s4 := nonce + ['"'];
    var s3 := ['"'] + s4;
    var s2 := " nonce=" + s3;
    var s1 := ['"'] + s2;
    QuotesAdd(nonce, ['"']);
    QuotesAdd(['"'], s4);
    QuotesAdd(" nonce=", s3);
    QuotesAdd(['"'], s2);
    QuotesAdd(source, s1);
    QuotesAdd(OPENER, source + s1);
  }

  lemma EndIsPlain(source: string, nonce: string)
    requires '"' !in source && '"' !in nonce
    ensures var e := HeaderEnd(source, nonce); '"' !in e && |e| > 2 && e[|e| - 1] == '\n'
  {}

  /** No line break stands in the first line. */
  lemma LineHasNoBreak(source: string, nonce: string)
    requires Clean(source) && '\n' !in nonce
    ensures '\n' !in Line(source, nonce)
  {}

  /** Where a block closes: after its content, unless the content closes it earlier. */
  lemma ClosesAt(source: string, nonce: string, content: string, more: string)
    requires Clean(source) && '\n' !in nonce
    ensures var close := First(content + "\n" + Tail(source, nonce) + more, Closers(source, nonce));
            if exists k :: 0 <= k < 3 && Occurs(content, Closers(source, nonce)[k])
            then close < |content| else close == |content| + 1
  {
    hide First, Tail, Closers, Clean;
    var pats, rest := Closers(source, nonce), "\n" + Tail(source, nonce) + more;
    var s := content + rest;
    assert content + "\n" + Tail(source, nonce) + more == s;
    ClosersAre(source, nonce);
    FirstIs(s, pats);
    if k :| 0 <= k < 3 && Occurs(content, pats[k]) {
      var i :| 0 <= i <= |content| && pats[k] <= content[i..];
      ClosersHaveNoBreak(source, nonce, k);
      assert pats[k] == content[i..][..|pats[k]|] == s[i..][..|pats[k]|];
    } else {
      forall i, k | 0 <= i < |content| + 1 && 0 <= k < |pats| ensures !(pats[k] <= s[i..]) {
        ClosersHaveNoBreak(source, nonce, k);
        assert i == |content| ==> s[i..][0] == '\n';
        if i < |content| && pats[k] <= s[i..] {
          NoStraddle(content, rest, pats[k], '\n', i);
        }
      }
      assert s[|content| + 1..] == Tail(source, nonce) + more;
      FirstUnique(s, pats, |content| + 1, 0);
    }
  }

  lemma ClosersAre(source: string, nonce: string)
    ensures |Closers(source, nonce)| == 3 && |Tail(source, nonce)| > 0
    ensures forall more :: Closers(source, nonce)[0] <= Tail(source, nonce) + more
  {}

  lemma {:induction false} BeforeHasNoStop(s: string, stop: char)
    ensures stop !in Before(s, stop).0
    decreases |s|
  {
    if s != "" && s[0] != stop {
      BeforeHasNoStop(s[1..], stop);
    }
  }

  lemma AnnouncedIsPlain(s: string)
    requires OPENER <= s
    ensures '"' !in Announced(s).0 && '"' !in Announced(s).1
  {
    var s1 := Before(s[|OPENER|..], '"').1;
    BeforeHasNoStop(s[|OPENER|..], '"');
    BeforeHasNoStop(Before(s1, '"').1, '"');
  }

  lemma HeaderOpens(source: string, nonce: string, more: string)
    requires '"' !in source && '"' !in nonce
    ensures Opens(Header(source, nonce) + more)
  {
    AnnouncedIs(source, nonce, more);
    hide Announced;
  }

  /** A header cannot start in front of a genuine one and end behind its beginning: it ends a
      line, so it would hold all four quotes of the genuine one, and these would be its own. */
  lemma NoOverlap(source: string, nonce: string, body: string, src: string, n: string, d: nat)
    requires Clean(source) && '"' !in nonce && '\n' !in nonce && '"' !in src && '"' !in n
    requires d < |Header(src, n)| && Header(src, n)[d..] <= Header(source, nonce) + body
    ensures d == 0
  {
    CleanHasNoQuote(source);
    FourQuotes(src, n);
    FourQuotes(source, nonce);
    LineHasNoBreak(source, nonce);
    EndIsPlain(src, n);
    QuoteEndsOpener(src, n);
    QuoteEndsOpener(source, nonce);
    HeaderEnds(src, n);
    HeaderIs(source, nonce);
    hide Clean, Header, HeaderEnd, Line, Quotes;
    var h := Header(src, n);
    HoldsLine(Line(source, nonce), h[d..], Header(source, nonce) + body);
    SameQuotes(h, d, Line(source, nonce), |OPENER| - 1);
  }

  lemma HeaderEnds(source: string, nonce: string)
    requires '"' !in source && '"' !in nonce
    ensures var h := Header(source, nonce);
            h != "" && h[|h| - 1] == '\n' && |h| > |OPENER| && h[|OPENER| - 1] == '"'
  {
    HeaderIs(source, nonce);
    EndIsPlain(source, nonce);
    QuoteEndsOpener(source, nonce);
    hide Header, HeaderEnd, Line;
  }

  /** A prefix that ends a line holds the line. */
  lemma HoldsLine(line: string, r: string, g: string)
    requires '\n' !in line && line <= g && r <= g && r != "" && r[|r| - 1] == '\n'
    ensures line <= r
  {
    assert g[|r| - 1] == '\n' && forall j :: 0 <= j < |line| ==> line[j] in line && line[j] == g[j];
  }

  lemma SameQuotes(h: string, d: nat, line: string, o: nat)
    requires d < |h| && o < |h| && h[o] == '"' && line <= h[d..] && Quotes(line) == Quotes(h)
    requires o < |line| && forall j :: 0 <= j < o ==> line[j] != '"'
    ensures d == 0
  {
    var x, r := h[..d], h[d..];
    QuotesAdd(line, r[|line|..]);
    assert r == line + r[|line|..];
    QuotesAdd(x, r);
    assert h == x + r;
    if o < d {
      SomeQuote(x, o);
    } else {
      assert line[o - d] == r[o - d] == h[o];
    }
  }

  lemma SomeQuote(s: string, i: nat)
    requires i < |s| && s[i] == '"'
    ensures Quotes(s) > 0
  {
    QuotesAdd(s[..i], s[i..]);
    assert s == s[..i] + s[i..];
  }

  lemma QuoteEndsOpener(source: string, nonce: string)
    ensures var line := Line(source, nonce);
            && |line| > |OPENER| && line[|OPENER| - 1] == '"'
            && forall j :: 0 <= j < |OPENER| - 1 ==> line[j] != '"'
  {
    var line := Line(source, nonce);
    assert line[..|OPENER|] == OPENER;
    OpenerShape();
    forall j | 0 <= j < |OPENER| ensures line[j] == OPENER[j] {
      assert line[j] == line[..|OPENER|][j];
    }
    hide Line;
  }

  /** In front of a genuine header, a header that starts in the text lies in the text. */
  lemma OpensInText(t: string, source: string, nonce: string, body: string)
    requires Clean(source) && '"' !in nonce && '\n' !in nonce && t != ""
    ensures Opens(t + (Header(source, nonce) + body)) <==> Opens(t)
  {
    hide Header, Announced, Clean;
    var fenced := Header(source, nonce) + body;
    var s := t + fenced;
    if Opens(t) {
      var (src, n) := Announced(t);
      AnnouncedIsPlain(t);
      var h := Header(src, n);
      assert s == h + (t[|h|..] + fenced);
      HeaderOpens(src, n, t[|h|..] + fenced);
    }
    if Opens(s) {
      var (src, n) := Announced(s);
      AnnouncedIsPlain(s);
      var h := Header(src, n);
      if |h| > |t| {
        assert h[|t|..] == s[..|h|][|t|..] == fenced[..|h| - |t|];
        NoOverlap(source, nonce, body, src, n, |t|);
      } else {
        assert h == s[..|h|] == t[..|h|];
        assert t == h + t[|h|..];
        HeaderOpens(src, n, t[|h|..]);
      }
    }
  }

  lemma FirstHeaderAtMost(s: string, i: nat)
    requires i < |s| && Opens(s[i..])
    ensures FirstHeader(s) <= i
  {
    hide Opens;
    FirstHeaderIs(s);
  }

  /** The first header of a text with something behind it that is a header itself. */
  lemma FirstOf(text: string, fenced: string)
    requires fenced != "" && Opens(fenced)
    requires forall i :: 0 <= i < |text| ==> (Opens((text + fenced)[i..]) <==> Opens(text[i..]))
    ensures var n := FirstHeader(text + fenced);
            if HoldsHeader(text) then n < |text| else n == |text|
  {
    hide Opens, FirstHeader;
    var s := text + fenced;
    assert s[|text|..] == fenced;
    FirstHeaderAtMost(s, |text|);
    FirstHeaderIs(s);
    if i :| 0 <= i < |text| && Opens(text[i..]) {
      FirstHeaderAtMost(s, i);
    }
  }

  /** The first header of a text and the block behind it. */
  lemma FirstHeaderAt(text: string, source: string, nonce: string, body: string)
    requires Clean(source) && '"' !in nonce && '\n' !in nonce
    ensures var n := FirstHeader(text + (Header(source, nonce) + body));
            if HoldsHeader(text) then n < |text| else n == |text|
  {
    CleanHasNoQuote(source);
    HeaderIsLong(source, nonce);
    hide Header, Opens, Clean, FirstHeader, HoldsHeader;
    var fenced := Header(source, nonce) + body;
    HeaderOpens(source, nonce, body);
    forall i | 0 <= i < |text| ensures Opens((text + fenced)[i..]) <==> Opens(text[i..]) {
      assert (text + fenced)[i..] == text[i..] + fenced;
      OpensInText(text[i..], source, nonce, body);
    }
    FirstOf(text, fenced);
  }

  lemma HeaderIsLong(source: string, nonce: string)
    ensures Header(source, nonce) != ""
  {}

  lemma CleanHasNoQuote(source: string)
    requires Clean(source)
    ensures '"' !in source
  {}

  /** The reader on one block: trusted text, the block, and what follows it. */
  lemma ReadBlock(nonces: Nonces, text: string, source: string, content: string, more: string)
    requires SixteenHex(nonces) && Clean(source) && !HoldsHeader(text)
    ensures var nonce := nonces(source, content);
            var body := content + "\n" + Tail(source, nonce) + more;
            var close := First(body, Closers(source, nonce));
            Read(text + Wrap(nonces, source, content) + more)
            == Fenced(text, source, Chomp(body[..close]), Read(Skip(body[close..], source, nonce)))
  {
    hide Tail, Closers, Skip, First, Announced, Clean, HoldsHeader, Opens;
    var nonce := nonces(source, content);
    var body := content + "\n" + Tail(source, nonce) + more;
    var fenced := Header(source, nonce) + body;
    var s := text + fenced;
    assert text + Wrap(nonces, source, content) + more == s;
    HexIsPlain(nonces, source, content);
    assert '"' !in source by { CleanHasNoQuote(source); }
    AnnouncedIs(source, nonce, body);
    FirstHeaderAt(text, source, nonce, body);
    hide Header, FirstHeader;
    assert s[|text|..] == fenced && s[..|text|] == text;
    assert fenced[|Header(source, nonce)|..] == body;
  }

  lemma ReadEarly(s: string, n: nat)
    requires n <= |s| && FirstHeader(s) < n
    ensures Read(s).Fenced? && |Read(s).text| < n
  {}

  /** A block is read back exactly, and reading goes on right after it, unless its content closes
      it; then it is read as something shorter.  Text that holds a header of its own ends there. */
  lemma ReadBlockBack(nonces: Nonces, text: string, source: string, content: string, more: string)
    requires SixteenHex(nonces) && Clean(source)
    ensures var d := Read(text + Wrap(nonces, source, content) + more);
            if HoldsHeader(text) then d.Fenced? && |d.text| < |text|
            else if SelfClosed(nonces, source, content) then d.Fenced? && |d.content| < |content|
            else d == Fenced(text, source, content, Read(more))
  {
    hide Tail, Closers, First, Clean, Read, HoldsHeader, Header;
    var nonce := nonces(source, content);
    var body := content + "\n" + Tail(source, nonce) + more;
    HexIsPlain(nonces, source, content);
    if HoldsHeader(text) {
      FirstHeaderAt(text, source, nonce, body);
      assert text + Wrap(nonces, source, content) + more == text + (Header(source, nonce) + body);
      ReadEarly(text + Wrap(nonces, source, content) + more, |text|);
    } else {
      ReadBlock(nonces, text, source, content, more);
      hide Wrap;
      ClosesAt(source, nonce, content, more);
      var close := First(body, Closers(source, nonce));
      if !SelfClosed(nonces, source, content) {
        assert body[..close] == content + "\n";
        assert Chomp(content + "\n") == content;
        assert body[close..] == Tail(source, nonce) + more;
        SkipsTail(source, nonce, more);
      }
    }
  }

  lemma SkipsTail(source: string, nonce: string, more: string)
    ensures Skip(Tail(source, nonce) + more, source, nonce) == more
  {
    hide Tail, Closers;
    var s := Tail(source, nonce) + more;
    assert s[..|Tail(source, nonce)|] == Tail(source, nonce);
  }

  lemma OccursBetween(before: string, pat: string, after: string)
    ensures Occurs(before + (pat + after), pat)
  {
    assert (before + (pat + after))[|before|..] == pat + after;
  }

  /** What stands in front of the bare inner tag. */
  function Announcement(source: string, nonce: string): string {
    Line(source, nonce) + (">" + (BEGIN + (source + (":" + nonce))))
  }

  /** It announces the nonce twice. */
  lemma AnnouncesTwice(source: string, nonce: string)
    ensures Occurs(Announcement(source, nonce), " nonce=" + (['"'] + (nonce + ['"'])))
    ensures Occurs(Announcement(source, nonce), BEGIN + (source + (":" + nonce)))
  {
    LineParts(source, nonce);
    hide Line;
    var head, pat, mark := OPENER + (source + ['"']), " nonce=" + (['"'] + (nonce + ['"'])),
                           BEGIN + (source + (":" + nonce));
    hide Occurs;
    OccursBetween(head, pat, ">" + mark);
    Regroup(head, pat, ">" + mark);
    OccursBetween(head + pat + ">", mark, "");
    Regroup(head + pat, ">", mark);
    assert mark + "" == mark;
  }

  lemma Regroup(a: string, b: string, c: string)
    ensures a + (b + c) == a + b + c
  {}

  /** How a block is laid out: the announcement, the bare inner tag, the content on its own lines,
      and three closing delimiters that each carry the nonce. */
  lemma BlockLayout(nonces: Nonces, source: string, content: string)
    ensures var n := nonces(source, content);
            Wrap(nonces, source, content)
            == Announcement(source, n) + ("\n<" + source + ">\n") + content
               + (("\n</" + source + ":" + n + ">\n") + ("END_UNTRUSTED_CONTENT:" + source + ":" + n + "\n")
                  + ("</untrusted_content:" + n + ">"))
  {
    var n := nonces(source, content);
    HeaderIs(source, n);
    EndParts(source, n);
    TailParts(source, n);
    hide Header, Line, HeaderEnd, Tail, Closers;
    Regroup(Line(source, n), ">" + (BEGIN + (source + (":" + n))), "\n<" + source + ">\n");
    Regroup(Header(source, n) + content, "\n", Tail(source, n));
  }

  lemma LineParts(source: string, nonce: string)
    ensures Line(source, nonce) == (OPENER + (source + ['"'])) + (" nonce=" + (['"'] + (nonce + ['"'])))
  {}

  lemma EndParts(source: string, nonce: string)
    ensures HeaderEnd(source, nonce) == ">" + (BEGIN + (source + (":" + nonce))) + ("\n<" + source + ">\n")
  {}

  lemma TailParts(source: string, nonce: string)
    ensures "\n" + Tail(source, nonce)
            == ("\n</" + source + ":" + nonce + ">\n") + ("END_UNTRUSTED_CONTENT:" + source + ":" + nonce + "\n")
               + ("</untrusted_content:" + nonce + ">")
  {}

  // ------------------------------------------------------------------ whole prompts

  /** Every label is one that its header can announce. */
  predicate CleanLabels(doc: Doc)
    decreases doc
  {
    doc.Fenced? ==> Clean(doc.source) && CleanLabels(doc.rest)
  }

  /** Some block's content carries its own closing delimiter. */
  ghost predicate Breached(nonces: Nonces, doc: Doc)
    decreases doc
  {
    match doc
    case End(_) => false
    case Fenced(_, source, content, rest) => SelfClosed(nonces, source, content) || Breached(nonces, rest)
  }

  /** Some text between the blocks holds a complete header. */
  ghost predicate Forged(doc: Doc)
    decreases doc
  {
    HoldsHeader(doc.text) || (doc.Fenced? && Forged(doc.rest))
  }

  lemma ReadText(text: string)
    ensures Read(text) == End(text) <==> !HoldsHeader(text)
  {
    FirstHeaderIs(text);
  }

  /** The reader recovers a prompt's trusted texts, labels and contents, all of them and exactly,
      if and only if no block's content carries its own closing delimiter and no text between
      the blocks holds a complete header.  Spoofed boundaries, whole fake blocks and other
      blocks' nonces in a content make no difference, nor do opening tags in a text. */
  lemma {:induction false} ReadRender(nonces: Nonces, doc: Doc)
    requires SixteenHex(nonces) && CleanLabels(doc)
    ensures Read(Render(nonces, doc)) == doc <==> !Breached(nonces, doc) && !Forged(doc)
    decreases doc
  {
    hide Read, Wrap, SelfClosed, HoldsHeader, Clean;
    match doc
    case End(text) => ReadText(text);
    case Fenced(text, source, content, rest) =>
      ReadBlockBack(nonces, text, source, content, Render(nonces, rest));
      ReadRender(nonces, rest);
  }

  // ------------------------------------------------------------------ texts around the blocks

  /** A text in which no line begins with the BEGIN marker holds no header, whatever else is in
      it. */
  lemma NoMarkerNoHeader(text: string)
    requires !Occurs(text, BEGIN)
    ensures !HoldsHeader(text)
  {
    hide Opens, Occurs;
    forall i | 0 <= i < |text| ensures !Opens(text[i..]) {
      if Opens(text[i..]) {
        HeaderHoldsMarker(text[i..]);
        OccursEarlier(text, i, BEGIN);
      }
    }
  }

  lemma OccursEarlier(text: string, i: nat, pat: string)
    requires i <= |text| && Occurs(text[i..], pat)
    ensures Occurs(text, pat)
  {
    var k :| 0 <= k <= |text[i..]| && pat <= text[i..][k..];
    assert text[i + k..] == text[i..][k..];
  }

  lemma HeaderHoldsMarker(t: string)
    requires Opens(t)
    ensures Occurs(t, BEGIN)
  {
    var (source, nonce) := Announced(t);
    var h := Header(source, nonce);
    HeaderIs(source, nonce);
    hide Line, Header, Announced, HeaderEnd;
    var rest := EndHoldsMarker(source, nonce);
    assert t == h + t[|h|..];
    MarkerInside(t, Line(source, nonce), ">", BEGIN, rest, t[|h|..]);
  }

  lemma EndHoldsMarker(source: string, nonce: string) returns (rest: string)
    ensures HeaderEnd(source, nonce) == ">" + (BEGIN + rest)
  {
    rest := source + (":" + (nonce + ("\n<" + (source + ">\n"))));
  }

  lemma MarkerInside(t: string, line: string, end: string, pat: string, rest: string, after: string)
    requires t == line + (end + (pat + rest)) + after
    ensures Occurs(t, pat)
  {
    assert t[|line| + |end|..] == pat + (rest + after);
  }

  /** One section of a finalised artifact, as `_render_sources_block` gets it. */
  datatype Section = Section(id: string, heading: string, excerpt: string)

  /** The sections of `_render_sources_block` and the text after them; `lead` is what joins a
      section to the one before it. */
  function Sections(lead: string, sections: seq<Section>, after: string): Doc
    decreases |sections|
  {
    if sections == [] then End(after)
    else
      var s := sections[0];
      Fenced(lead + Title(s.id, s.heading), s.id, s.excerpt, Sections("\n\n", sections[1..], after))
  }

  function Title(id: string, heading: string): string {
    "### " + (id + (" (heading: " + (heading + ")\n")))
  }

  lemma TitleHasNoHeader(lead: string, id: string, heading: string)
    requires (lead == "" || lead == "\n\n") && '\n' !in id && '\n' !in heading
    ensures !HoldsHeader(lead + Title(id, heading))
  {
    var line := "### " + (id + (" (heading: " + (heading + ")")));
    var text := lead + Title(id, heading);
    assert '\n' !in line && line[0] == '#';
    assert text == lead + (line + "\n");
    hide Title;
    forall i | 0 <= i <= |text| ensures !(BEGIN <= text[i..]) {
      assert BEGIN[0] == '\n' && BEGIN[1] == 'B';
      if i + 1 < |text| {
        assert text[i..][0] == text[i] && text[i..][1] == text[i + 1];
        assert text[i] != '\n' || text[i + 1] != 'B';
      }
    }
    NoMarkerNoHeader(text);
  }

  /** The storyboard's source block puts headings of the user's documents outside the fences.
      Whatever these headings are, as long as each is one line: the block is read back exactly
      if and only if no excerpt carries its own closing delimiter. */
  lemma SectionsReadBack(nonces: Nonces, lead: string, sections: seq<Section>, after: string)
    requires SixteenHex(nonces) && (lead == "" || lead == "\n\n") && !Occurs(after, BEGIN)
    requires forall s :: s in sections ==> Clean(s.id) && '\n' !in s.heading
    ensures var doc := Sections(lead, sections, after);
            Read(Render(nonces, doc)) == doc
            <==> forall s :: s in sections ==> !SelfClosed(nonces, s.id, s.excerpt)
  {
    SectionsAre(nonces, lead, sections, after);
    hide Read, Render, SelfClosed;
    ReadRender(nonces, Sections(lead, sections, after));
  }

  lemma {:induction false} SectionsAre(nonces: Nonces, lead: string, sections: seq<Section>, after: string)
    requires (lead == "" || lead == "\n\n") && !Occurs(after, BEGIN)
    requires forall s :: s in sections ==> Clean(s.id) && '\n' !in s.heading
    ensures var doc := Sections(lead, sections, after);
            && CleanLabels(doc) && !Forged(doc)
            && (Breached(nonces, doc) <==> exists s :: s in sections && SelfClosed(nonces, s.id, s.excerpt))
    decreases |sections|
  {
    hide SelfClosed, HoldsHeader, Title;
    if sections == [] {
      NoMarkerNoHeader(after);
    } else {
      SectionsAre(nonces, "\n\n", sections[1..], after);
      assert sections == [sections[0]] + sections[1..];
      TitleHasNoHeader(lead, sections[0].id, sections[0].heading);
    }
  }
}
