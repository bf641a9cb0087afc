/** Frames of the charging backend: SockJS messages, which wrap STOMP 1.2 frames in a JSON array, and
    the body of a MESSAGE frame. */
module Stomp {
  import opened Text
  import opened Json
  import opened Stations

  // ----- searching and trimming -----

  predicate HasAt(s: string, pattern: string, i: nat) {
    i + |pattern| <= |s| && s[i..i + |pattern|] == pattern
  }

  /** strings.Index: the first occurrence. */
  function IndexFrom(s: string, pattern: string, i: nat): (r: Option<nat>)
    requires i <= |s|
    ensures r.Some? ==> i <= r.value && HasAt(s, pattern, r.value)
    ensures r.Some? ==> forall k :: i <= k < r.value ==> !HasAt(s, pattern, k)
    ensures r.None? ==> forall k :: i <= k <= |s| ==> !HasAt(s, pattern, k)
    decreases |s| - i
  {
    if HasAt(s, pattern, i) then Some(i)
    else if i == |s| then None
    else IndexFrom(s, pattern, i + 1)
  }

  function Index(s: string, pattern: string): Option<nat> {
    IndexFrom(s, pattern, 0)
  }

  lemma IndexIs(s: string, pattern: string, i: nat)
    requires HasAt(s, pattern, i) && forall k :: 0 <= k < i ==> !HasAt(s, pattern, k)
    ensures Index(s, pattern) == Some(i)
  {
  }

  /** strings.TrimRight with one character in the cutset. */
  function TrimRightChar(s: string, c: char): string {
    if s != "" && s[|s| - 1] == c then TrimRightChar(s[..|s| - 1], c) else s
  }

  function Run(c: char, n: nat): (s: string)
    ensures |s| == n && forall i :: 0 <= i < n ==> s[i] == c
  {
    seq(n, _ => c)
  }

  /** Trailing copies of c go, and nothing else does. */
  lemma {:induction false} TrimRightRun(s: string, c: char, n: nat)
    requires s == "" || s[|s| - 1] != c
    ensures TrimRightChar(s + Run(c, n), c) == s
    decreases n
  {
    if n == 0 {
      assert s + Run(c, 0) == s;
    } else {
      assert (s + Run(c, n))[..|s| + n - 1] == s + Run(c, n - 1);
      TrimRightRun(s, c, n - 1);
    }
  }

  lemma {:induction false} TrimRightShorter(s: string, c: char)
    ensures |TrimRightChar(s, c)| <= |s|
    ensures s != "" && s[|s| - 1] == c ==> |TrimRightChar(s, c)| < |s|
  {
    if s != "" && s[|s| - 1] == c { TrimRightShorter(s[..|s| - 1], c); }
  }

  // ----- the body of a frame -----

  function ExtractStompBody(frame: string): string {
    match Index(frame, "\n\n")
    case None => ""
    case Some(sep) => TrimRightChar(TrimRightChar(frame[sep + 2..], '\0'), '\n')
  }

  /** A frame: the command and header lines, a blank line, the body, line feeds, then NULs. */
  function Frame(head: string, body: string, feeds: nat, nuls: nat): string {
    head + ("\n\n" + (body + Run('\n', feeds) + Run('\0', nuls)))
  }

  /** The header block holds no blank line of its own. */
  predicate NoBlankLine(head: string) {
    Index(head + "\n", "\n\n").None?
  }

  lemma FrameBodyAt(head: string, tail: string)
    requires NoBlankLine(head)
    ensures Index(head + ("\n\n" + tail), "\n\n") == Some(|head|)
    ensures (head + ("\n\n" + tail))[|head| + 2..] == tail
  {
    var f := head + ("\n\n" + tail);
    assert f[|head|..|head| + 2] == "\n\n";
    forall k | 0 <= k < |head| ensures !HasAt(f, "\n\n", k) {
      assert !HasAt(head + "\n", "\n\n", k);
      assert f[k..k + 2] == (head + "\n")[k..k + 2];
    }
    IndexIs(f, "\n\n", |head|);
  }

  /** When the body comes back exactly: it is empty, or it ends in no line feed and, unless a line feed
      separates it from the NULs, in no NUL. */
  predicate Recoverable(body: string, feeds: nat) {
    body == "" || (body[|body| - 1] != '\n' && (body[|body| - 1] == '\0' ==> feeds > 0))
  }

  /** The body of a frame is recovered exactly, blank lines and all, if and only if it does not end in
      what is trimmed. */
  lemma ExtractIffRecoverable(head: string, body: string, feeds: nat, nuls: nat)
    requires NoBlankLine(head)
    ensures ExtractStompBody(Frame(head, body, feeds, nuls)) == body <==> Recoverable(body, feeds)
  {
    var text := body + Run('\n', feeds);
    FrameBodyAt(head, text + Run('\0', nuls));
    if text == "" || text[|text| - 1] != '\0' {
      TrimRightRun(text, '\0', nuls);
      if body == "" || body[|body| - 1] != '\n' {
        TrimRightRun(body, '\n', feeds);
      } else {
        TrimRightFeeds(body, feeds);
      }
    } else {
      assert feeds == 0 && text == body;
      TrimRightLoses(body, nuls);
    }
  }

  /** A body that ends in a line feed loses it. */
  lemma {:induction false} TrimRightFeeds(body: string, feeds: nat)
    requires body != "" && body[|body| - 1] == '\n'
    ensures TrimRightChar(body + Run('\n', feeds), '\n') != body
    decreases feeds
  {
    var s := body + Run('\n', feeds);
    if feeds == 0 {
      assert s == body;
      TrimRightShorter(body, '\n');
    } else {
      assert s[..|s| - 1] == body + Run('\n', feeds - 1);
      TrimRightFeeds(body, feeds - 1);
    }
  }

  /** A body that runs straight into the NULs and ends in one itself loses it. */
  lemma {:induction false} TrimRightLoses(body: string, nuls: nat)
    requires body != "" && body[|body| - 1] == '\0'
    ensures |TrimRightChar(TrimRightChar(body + Run('\n', 0) + Run('\0', nuls), '\0'), '\n')| < |body|
    decreases nuls
  {
    var s := body + Run('\n', 0) + Run('\0', nuls);
    if nuls == 0 {
      assert s == body;
      TrimRightShorter(body, '\0');
    } else {
      assert s[..|s| - 1] == body + Run('\n', 0) + Run('\0', nuls - 1);
      TrimRightLoses(body, nuls - 1);
    }
    TrimRightShorter(TrimRightChar(s, '\0'), '\n');
  }

  /** STOMP 1.2 allows line ends after the NUL.  Then the NUL stays in the body. */
  lemma LineEndAfterNul(head: string, body: string, ends: nat)
    requires NoBlankLine(head) && ends > 0
    ensures ExtractStompBody(head + ("\n\n" + (body + "\0" + Run('\n', ends)))) == body + "\0"
  {
    var tail := body + "\0" + Run('\n', ends);
    FrameBodyAt(head, tail);
    assert tail[|tail| - 1] == '\n';
    assert TrimRightChar(tail, '\0') == tail;
    TrimRightRun(body + "\0", '\n', ends);
  }

  /** It also allows carriage returns before line feeds.  A frame whose lines all end that way has no
      two line feeds in a row, and its body is lost. */
  lemma CarriageReturnsLoseBody(frame: string)
    requires forall i :: 0 <= i < |frame| && frame[i] == '\n' ==> i > 0 && frame[i - 1] == '\r'
    ensures ExtractStompBody(frame) == ""
  {
    NoFeeds(frame);
  }

  // ----- line ends of either kind, and line ends after the NUL -----

  function LineEnd(crlf: bool): string {
    if crlf then "\r\n" else "\n"
  }

  function LineEnds(crlf: bool, n: nat): (s: string)
    ensures |s| == n * |LineEnd(crlf)|
    ensures forall i :: 0 <= i < |s| ==> s[i] == if crlf && i % 2 == 0 then '\r' else '\n'
  {
    seq(n * |LineEnd(crlf)|, i => if crlf && i % 2 == 0 then '\r' else '\n')
  }

  /** A frame by the grammar of STOMP 1.2: the header block, whose last line ends in a line feed, a blank
      line, the body, a NUL, and any number of line ends. */
  function GrammarFrame(head: string, blankCr: bool, body: string, endsCr: bool, n: nat): string {
    head + ("\n" + LineEnd(blankCr) + AfterBlank(body, endsCr, n))
  }

  function AfterBlank(body: string, endsCr: bool, n: nat): string {
    body + "\0" + LineEnds(endsCr, n)
  }

  /** Where trimming line feeds stops. */
  lemma {:induction false} TrimRightKeeps(s: string, c: char, k: nat)
    requires k < |s| && s[k] != c
    ensures |TrimRightChar(s, c)| > k && TrimRightChar(s, c) <= s
  {
    if s[|s| - 1] == c {
      TrimRightKeeps(s[..|s| - 1], c, k);
    }
  }

  /** With a plain blank line, line ends after the NUL keep the NUL in the body. */
  lemma EndsKeepNul(body: string, endsCr: bool, n: nat)
    requires n > 0
    ensures TrimRightChar(TrimRightChar(AfterBlank(body, endsCr, n), '\0'), '\n') != body
  {
    var tail := AfterBlank(body, endsCr, n);
    assert tail[|tail| - 1] == LineEnds(endsCr, n)[|LineEnds(endsCr, n)| - 1] == '\n';
    TrimRightKeeps(tail, '\n', |body|);
  }

  predicate FeedsAt(s: string, k: nat) {
    k + 2 <= |s| && s[k] == '\n' && s[k + 1] == '\n'
  }

  /** strings.Index of two line feeds, by characters. */
  lemma FeedsIndex(s: string)
    ensures var i := Index(s, "\n\n");
            if i.Some? then FeedsAt(s, i.value) && forall k: nat :: k < i.value ==> !FeedsAt(s, k)
            else forall k: nat :: !FeedsAt(s, k)
  {
    forall k: nat ensures HasAt(s, "\n\n", k) <==> FeedsAt(s, k) {
    }
  }

  lemma FirstFeeds(s: string, i: nat)
    requires FeedsAt(s, i) && forall k: nat :: k < i ==> !FeedsAt(s, k)
    ensures Index(s, "\n\n") == Some(i)
  {
    FeedsIndex(s);
  }

  lemma NoFeeds(s: string)
    requires forall k: nat :: !FeedsAt(s, k)
    ensures Index(s, "\n\n").None?
  {
    FeedsIndex(s);
  }

  /** What stands before the first blank line of two line feeds does not matter to the extraction. */
  lemma ExtractBehind(front: string, s: string)
    requires forall k: nat :: k < |front| ==> !FeedsAt(front + s, k)
    ensures ExtractStompBody(front + s) == ExtractStompBody(s)
  {
    var f := front + s;
    FeedsIndex(s);
    forall k: nat ensures FeedsAt(f, |front| + k) <==> FeedsAt(s, k) {
    }
    match Index(s, "\n\n")
    case None =>
      forall k: nat ensures !FeedsAt(f, k) {
        if k >= |front| { assert !FeedsAt(s, k - |front|); }
      }
      NoFeeds(f);
    case Some(i) =>
      forall k: nat | k < |front| + i ensures !FeedsAt(f, k) {
        if k >= |front| { assert !FeedsAt(s, k - |front|); }
      }
      FirstFeeds(f, |front| + i);
      assert f[|front| + i + 2..] == s[i + 2..];
  }

  /** Behind a blank line with a carriage return only its own line feed is left to be found. */
  lemma CrBlank(head: string, rest: string)
    requires NoBlankLine(head)
    ensures ExtractStompBody(head + ("\n" + "\r\n" + rest)) == ExtractStompBody("\n" + rest)
  {
    var front, s := head + "\n\r", "\n" + rest;
    var f := front + s;
    FeedsIndex(head + "\n");
    forall k: nat | k < |front| ensures !FeedsAt(f, k) {
      if k < |head| {
        assert !FeedsAt(head + "\n", k);
        assert f[k] == (head + "\n")[k] && f[k + 1] == (head + "\n")[k + 1];
      }
    }
    ExtractBehind(front, s);
    assert f == head + ("\n" + "\r\n" + rest);
  }

  /** If a word equals its own end, q characters on, followed by q more, and every other one of those is a
      carriage return, then so is every other one of its characters. */
  lemma {:induction false} EveryOtherCr(body: string, q: nat, i: nat)
    requires 0 < q <= |body| && q % 2 == 0 && i < |body| && (|body| - i) % 2 == 1
    requires forall k :: 0 <= k < |body| - q ==> body[k] == body[k + q]
    requires forall k :: |body| - q <= k < |body| && (|body| - k) % 2 == 1 ==> body[k] == '\r'
    ensures body[i] == '\r'
    decreases |body| - i
  {
    if i + q < |body| {
      EveryOtherCr(body, q, i + q);
    }
  }
  lemma {:induction false} ConstantWord(body: string)
    requires body != "" && forall k :: 0 <= k < |body| - 1 ==> body[k] == body[k + 1]
    ensures body[0] == body[|body| - 1]
  {
    if |body| > 1 {
      ConstantWord(body[1..]);
    }
  }

  /** Plain line ends are trimmed, and only they. */
  lemma TailBehindFeeds(body: string, q: nat, n: nat)
    requires 0 < q <= |body| && body[q - 1] == '\n' && n > 0
    ensures TrimRightChar(TrimRightChar(body[q..] + "\0" + LineEnds(false, n), '\0'), '\n') != body
  {
    var s := body[q..] + "\0";
    assert LineEnds(false, n) == Run('\n', n);
    TrimRightRun(s, '\n', n);
    if s == body {
      assert body[|body| - 1] == '\0';
      ConstantWord(body);
    }
  }

  ghost predicate EveryOtherReturn(s: string) {
    forall k :: 0 <= k < |s| && k % 2 == 1 ==> s[k] == '\r'
  }

  /** The end of a body, a NUL, and line ends with carriage returns but for the last line feed. */
  function ReturnsEnd(n: nat): (s: string)
    requires n > 0
    ensures |s| == 2 * n && s[2 * n - 1] == '\r'
    ensures EveryOtherReturn(s)
  {
    var ends := LineEnds(true, n);
    var s := "\0" + ends[..2 * n - 1];
    assert forall k :: 0 < k < 2 * n ==> s[k] == ends[k - 1];
    s
  }

  /** Of line ends with carriage returns the last line feed is trimmed, and nothing else. */
  lemma TrimReturns(w: string, n: nat)
    requires n > 0
    ensures TrimRightChar(TrimRightChar(w + "\0" + LineEnds(true, n), '\0'), '\n') == w + ReturnsEnd(n)
  {
  }

  /** A word that repeats such an end has no two line feeds where the repetition starts. */
  lemma RepeatedEnd(body: string, q: nat, t: string)
    requires 1 < q <= |body| && |t| == q && q % 2 == 0 && body == body[q..] + t
    requires EveryOtherReturn(t)
    ensures body[q - 2] == '\r' || body[q - 1] == '\r'
  {
    forall k | |body| - q <= k < |body| && (|body| - k) % 2 == 1 ensures body[k] == '\r' {
      var j := k - (|body| - q);
      assert body[k] == t[j] && j == q - (|body| - k);
    }
    forall k | 0 <= k < |body| - q ensures body[k] == body[k + q] {
      assert (body[q..] + t)[k] == body[q..][k];
    }
    EveryOtherCr(body, q, if (|body| - q) % 2 == 1 then q - 2 else q - 1);
  }

  lemma TailBehindReturns(body: string, q: nat, n: nat)
    requires 0 < q <= |body| && body[q - 1] == '\n' && (q > 1 ==> body[q - 2] == '\n') && n > 0
    ensures TrimRightChar(TrimRightChar(body[q..] + "\0" + LineEnds(true, n), '\0'), '\n') != body
  {
    TrimReturns(body[q..], n);
    NotRepeated(body, q, ReturnsEnd(n), n);
  }

  lemma NotRepeated(body: string, q: nat, t: string, n: nat)
    requires 0 < q <= |body| && body[q - 1] == '\n' && (q > 1 ==> body[q - 2] == '\n')
    requires n > 0 && |t| == 2 * n && EveryOtherReturn(t)
    ensures body[q..] + t != body
  {
    if body[q..] + t == body {
      assert |t| == q;
      RepeatedEnd(body, q, t);
    }
  }

  lemma TailBehind(body: string, q: nat, endsCr: bool, n: nat)
    requires 0 < q <= |body| && body[q - 1] == '\n' && (q > 1 ==> body[q - 2] == '\n')
    ensures TrimRightChar(TrimRightChar(body[q..] + "\0" + LineEnds(endsCr, n), '\0'), '\n') != body
  {
    if n == 0 {
      var tail := body[q..] + "\0" + LineEnds(endsCr, 0);
      TrimRightShorter(tail, '\0');
      TrimRightShorter(TrimRightChar(tail, '\0'), '\n');
    } else if endsCr {
      TailBehindReturns(body, q, n);
    } else {
      TailBehindFeeds(body, q, n);
    }
  }

  lemma BlankInBody(body: string, ends: string, i: nat)
    requires Index("\n" + body, "\n\n") == Some(i)
    ensures i < |body|
    ensures ExtractStompBody("\n" + (body + "\0" + ends))
         == TrimRightChar(TrimRightChar(body[i + 1..] + "\0" + ends, '\0'), '\n')
  {
    var lead, rest := "\n" + body, "\0" + ends;
    var z := lead + rest;
    FeedsIndex(lead);
    forall k: nat | k <= i ensures FeedsAt(z, k) <==> FeedsAt(lead, k) {
    }
    FirstFeeds(z, i);
    assert z == "\n" + (body + "\0" + ends);
    assert z[i + 2..] == body[i + 1..] + "\0" + ends;
  }

  lemma NoBlankInBody(body: string, ends: string)
    requires Index("\n" + body, "\n\n").None?
    ensures ExtractStompBody("\n" + (body + "\0" + ends)) == ExtractStompBody(ends)
  {
    var lead := "\n" + body;
    var front := lead + "\0";
    var z := front + ends;
    FeedsIndex(lead);
    forall k: nat | k < |front| ensures !FeedsAt(z, k) {
      if k + 1 < |lead| {
        assert !FeedsAt(lead, k);
        assert z[k] == lead[k] && z[k + 1] == lead[k + 1];
      } else {
        assert z[|lead|] == '\0';
      }
    }
    ExtractBehind(front, ends);
    assert z == "\n" + (body + "\0" + ends);
  }

  lemma FeedsOnly(endsCr: bool, n: nat, k: nat)
    requires var ends := LineEnds(endsCr, n); k + 2 <= |ends| && ends[k] == '\n' == ends[k + 1]
    ensures TrimRightChar(TrimRightChar(LineEnds(endsCr, n)[k + 2..], '\0'), '\n') == ""
  {
    var rest := LineEnds(endsCr, n)[k + 2..];
    assert rest == Run('\n', |rest|);
    TrimRightRun("", '\n', |rest|);
    assert "" + rest == rest;
  }

  /** Line ends alone yield nothing. */
  lemma EndsAlone(endsCr: bool, n: nat)
    ensures ExtractStompBody(LineEnds(endsCr, n)) == ""
  {
    var ends := LineEnds(endsCr, n);
    FeedsIndex(ends);
    match Index(ends, "\n\n")
    case None =>
    case Some(k) => FeedsOnly(endsCr, n, k);
  }

  /** A blank line with a carriage return loses every body but the empty one. */
  lemma CrBlankLoses(body: string, endsCr: bool, n: nat)
    ensures ExtractStompBody("\n" + AfterBlank(body, endsCr, n)) == body <==> body == ""
  {
    var lead := "\n" + body;
    FeedsIndex(lead);
    match Index(lead, "\n\n")
    case Some(i) =>
      BlankInBody(body, LineEnds(endsCr, n), i);
      assert lead[i + 1] == body[i] && (i > 0 ==> lead[i] == body[i - 1]);
      TailBehind(body, i + 1, endsCr, n);
    case None =>
      NoBlankInBody(body, LineEnds(endsCr, n));
      EndsAlone(endsCr, n);
  }

  /** Which bodies of the frames that STOMP 1.2 allows come back: those behind a plain blank line and with
      no line end after the NUL that do not end in what is trimmed, and, behind a blank line with a
      carriage return, the empty one. */
  lemma GrammarFrameIff(head: string, blankCr: bool, body: string, endsCr: bool, n: nat)
    requires NoBlankLine(head)
    ensures ExtractStompBody(GrammarFrame(head, blankCr, body, endsCr, n)) == body
       <==> (if blankCr then body == "" else n == 0 && Recoverable(body, 0))
  {
    var tail := AfterBlank(body, endsCr, n);
    if blankCr {
      assert GrammarFrame(head, true, body, endsCr, n) == head + ("\n" + "\r\n" + tail);
      CrBlank(head, tail);
      CrBlankLoses(body, endsCr, n);
    } else {
      assert GrammarFrame(head, false, body, endsCr, n) == head + ("\n\n" + tail);
      FrameBodyAt(head, tail);
      if n > 0 {
        EndsKeepNul(body, endsCr, n);
      } else {
        assert tail == body + Run('\n', 0) + Run('\0', 1);
        ExtractIffRecoverable(head, body, 0, 1);
      }
    }
  }

  /** Behind the first blank line in the body itself, what is found keeps the NUL or is too short. */
  lemma BlankInBodyLoses(body: string, q: nat, ends: string)
    requires 0 < q <= |body| && '\0' !in body && (ends == "" || ends[|ends| - 1] == '\n')
    ensures TrimRightChar(TrimRightChar(body[q..] + "\0" + ends, '\0'), '\n') != body
  {
    var tail := body[q..] + "\0" + ends;
    if ends == "" {
      TrimRightShorter(tail, '\0');
      TrimRightShorter(TrimRightChar(tail, '\0'), '\n');
    } else {
      var k := |body| - q;
      assert tail[|tail| - 1] == '\n' && tail[k] == '\0';
      TrimRightKeeps(tail, '\n', k);
      assert TrimRightChar(tail, '\n')[k] == '\0';
    }
  }

  lemma CrBlankNulFree(body: string, ends: string)
    requires '\0' !in body && (ends == "" || ends[|ends| - 1] == '\n')
    ensures ExtractStompBody("\n" + (body + "\0" + ends)) == body
       <==> Index("\n" + body, "\n\n").None? && ExtractStompBody(ends) == body
  {
    match Index("\n" + body, "\n\n")
    case Some(i) =>
      BlankInBody(body, ends, i);
      BlankInBodyLoses(body, i + 1, ends);
    case None => NoBlankInBody(body, ends);
  }

  /** The same for line ends of mixed kinds and bodies without NUL: behind a blank line with a carriage
      return, the body comes back exactly if it holds no blank line and is what the line ends alone would
      yield. */
  lemma MixedEndsIff(head: string, blankCr: bool, body: string, ends: string)
    requires NoBlankLine(head) && '\0' !in body && (ends == "" || ends[|ends| - 1] == '\n')
    ensures ExtractStompBody(head + ("\n" + LineEnd(blankCr) + (body + "\0" + ends))) == body
       <==> if blankCr then Index("\n" + body, "\n\n").None? && ExtractStompBody(ends) == body
            else ends == "" && (body == "" || body[|body| - 1] != '\n')
  {
    var tail := body + "\0" + ends;
    if blankCr {
      assert head + ("\n" + LineEnd(true) + tail) == head + ("\n" + "\r\n" + tail);
      CrBlank(head, tail);
      CrBlankNulFree(body, ends);
    } else {
      assert head + ("\n" + LineEnd(false) + tail) == head + ("\n\n" + tail);
      PlainBlankNulFree(head, body, ends);
    }
  }

  lemma PlainBlankNulFree(head: string, body: string, ends: string)
    requires NoBlankLine(head) && '\0' !in body && (ends == "" || ends[|ends| - 1] == '\n')
    ensures ExtractStompBody(head + ("\n\n" + (body + "\0" + ends))) == body
       <==> ends == "" && (body == "" || body[|body| - 1] != '\n')
  {
    var tail := body + "\0" + ends;
    FrameBodyAt(head, tail);
    if ends == "" {
      assert tail == body + Run('\n', 0) + Run('\0', 1);
      ExtractIffRecoverable(head, body, 0, 1);
    } else {
      assert tail[|tail| - 1] == '\n' && tail[|body|] == '\0';
      TrimRightKeeps(tail, '\n', |body|);
    }
  }

  /** So mixed line ends can even make a body up: a carriage return comes back here, from behind the NUL. */
  lemma MixedEndsMakeUp(head: string)
    requires NoBlankLine(head)
    ensures ExtractStompBody(head + ("\n" + LineEnd(true) + ("" + "\0" + "\n\n\r\n"))) == "\r"
  {
    var ends := "\n\n\r\n";
    var z := "\n" + ("" + "\0" + ends);
    assert head + ("\n" + LineEnd(true) + ("" + "\0" + ends)) == head + ("\n" + "\r\n" + ("" + "\0" + ends));
    CrBlank(head, "" + "\0" + ends);
    FirstFeeds(z, 2);
    assert z[4..] == "\r" + Run('\n', 1);
    TrimRightRun("\r", '\n', 1);
  }

  // ----- delivering events -----

  /** encoding/json's reading of a message body; an unreadable body is None. */
  type BodyReader = string -> Option<StatusEvent>

  function Command(frame: string): string {
    match Index(frame, "\n")
    case None => ""
    case Some(i) => frame[..i]
  }

  /** The events one STOMP frame delivers: one for a readable MESSAGE, otherwise none. */
  function FrameEvents(frame: string, read: BodyReader): seq<StatusEvent> {
    if Command(frame) != "MESSAGE" then []
    else
      match read(ExtractStompBody(frame))
      case None => []
      case Some(ev) => [ev]
  }

  function EventsOf(frames: seq<string>, read: BodyReader): seq<StatusEvent> {
    if frames == [] then []
    else EventsOf(frames[..|frames| - 1], read) + FrameEvents(frames[|frames| - 1], read)
  }

  /** json.Unmarshal of a JSON value into []string: null elements become empty strings, a null value the
      empty list. */
  function AsStrings(items: seq<Json>): Option<seq<string>> {
    if items == [] then Some([])
    else
      match (items[0], AsStrings(items[1..]))
      case (JString(s), Some(rest)) => Some([s] + rest)
      case (JNull, Some(rest)) => Some([""] + rest)
      case _ => None
  }

  function ReadFrames(text: string): Option<seq<string>> {
    match Decode(text)
    case Some(JArray(items)) => AsStrings(items)
    case Some(JNull) => Some([])
    case _ => None
  }

  /** The events a SockJS message delivers. */
  function Delivered(message: string, read: BodyReader): seq<StatusEvent> {
    if message == "" || message[0] != 'a' then []
    else
      match ReadFrames(message[1..])
      case None => []
      case Some(frames) => EventsOf(frames, read)
  }

  method ProcessStomp(frame: string, read: BodyReader) returns (calls: seq<StatusEvent>)
    ensures calls == FrameEvents(frame, read)
  {
    var end := Index(frame, "\n");
    if end.None? {
      return [];
    }
    if frame[..end.value] == "MESSAGE" {
      var ev := read(ExtractStompBody(frame));
      if ev.Some? {
        return [ev.value];
      }
    }
    return [];
  }

  /** Calls the handler for each frame in turn; here the calls are collected. */
  method ProcessSockJs(message: string, read: BodyReader) returns (calls: seq<StatusEvent>)
    ensures calls == Delivered(message, read)
  {
    calls := [];
    if message == "" || message[0] != 'a' {
      return;
    }
    var frames := ReadFrames(message[1..]);
    if frames.None? {
      return;
    }
    for i := 0 to |frames.value|
      invariant calls == EventsOf(frames.value[..i], read)
    {
      assert frames.value[..i + 1][..i] == frames.value[..i];
      var more := ProcessStomp(frames.value[i], read);
      calls := calls + more;
    }
    assert frames.value[..|frames.value|] == frames.value;
  }

  // ----- what a sender packs is what is delivered -----

  function FramesJson(frames: seq<string>): Json {
    JArray(seq(|frames|, i requires 0 <= i < |frames| => JString(frames[i])))
  }

  /** json.Marshal of a list of frames; with one frame, the text the service itself sends. */
  function EncodeFrames(frames: seq<string>): string {
    Encode(FramesJson(frames))
  }

  lemma {:induction false} AsStringsInverse(frames: seq<string>)
    ensures AsStrings(FramesJson(frames).items) == Some(frames)
  {
    if frames != [] {
      assert FramesJson(frames).items[1..] == FramesJson(frames[1..]).items;
      AsStringsInverse(frames[1..]);
      assert frames == [frames[0]] + frames[1..];
    }
  }

  /** The frames of a message are recovered, in order, whatever characters they contain. */
  lemma FramesRoundTrip(frames: seq<string>)
    ensures ReadFrames(EncodeFrames(frames)) == Some(frames)
  {
    RoundTrip(FramesJson(frames));
    AsStringsInverse(frames);
  }

  /** A MESSAGE frame with the given header lines and body. */
  function MessageFrame(headers: string, body: string, feeds: nat, nuls: nat): string {
    Frame("MESSAGE\n" + headers, body, feeds, nuls)
  }

  lemma MessageCommand(headers: string, tail: string)
    ensures Command("MESSAGE\n" + headers + tail) == "MESSAGE"
  {
    var f := "MESSAGE\n" + headers + tail;
    assert f[7] == '\n' && f[..7] == "MESSAGE";
    assert HasAt(f, "\n", 7);
    forall k | 0 <= k < 7 ensures !HasAt(f, "\n", k) {
      assert f[k] == "MESSAGE"[k];
      assert f[k..k + 1] == [f[k]];
    }
    IndexIs(f, "\n", 7);
  }

  datatype Message = Message(headers: string, body: string, feeds: nat, nuls: nat)

  /** What a SockJS message carries: MESSAGE frames, and others. */
  datatype Packet = Event(m: Message) | Other(frame: string)

  predicate WellFormed(p: Packet) {
    match p
    case Event(m) => NoBlankLine("MESSAGE\n" + m.headers) && Recoverable(m.body, m.feeds)
    case Other(frame) => !("MESSAGE\n" <= frame)
  }

  function FrameOf(p: Packet): string {
    match p
    case Event(m) => MessageFrame(m.headers, m.body, m.feeds, m.nuls)
    case Other(frame) => frame
  }

  function Packed(packets: seq<Packet>): (r: seq<string>)
    ensures |r| == |packets|
  {
    seq(|packets|, i requires 0 <= i < |packets| => FrameOf(packets[i]))
  }

  /** The readable bodies, in order. */
  function BodiesRead(packets: seq<Packet>, read: BodyReader): seq<StatusEvent> {
    if packets == [] then []
    else
      var front := BodiesRead(packets[..|packets| - 1], read);
      match packets[|packets| - 1]
      case Other(_) => front
      case Event(m) => front + match read(m.body) case None => [] case Some(ev) => [ev]
  }

  lemma MessageDelivers(m: Message, read: BodyReader)
    requires WellFormed(Event(m))
    ensures FrameEvents(MessageFrame(m.headers, m.body, m.feeds, m.nuls), read)
         == match read(m.body) case None => [] case Some(ev) => [ev]
  {
    ExtractIffRecoverable("MESSAGE\n" + m.headers, m.body, m.feeds, m.nuls);
    MessageCommand(m.headers, "\n\n" + (m.body + Run('\n', m.feeds) + Run('\0', m.nuls)));
  }

  /** A frame that does not begin with the line MESSAGE delivers nothing. */
  lemma OtherDeliversNothing(frame: string, read: BodyReader)
    requires !("MESSAGE\n" <= frame)
    ensures FrameEvents(frame, read) == []
  {
    MessageBegins(frame);
  }

  lemma MessageBegins(frame: string)
    ensures Command(frame) == "MESSAGE" ==> "MESSAGE\n" <= frame
  {
    match Index(frame, "\n")
    case None =>
    case Some(i) =>
      assert frame[..i + 1] == frame[..i] + frame[i..i + 1];
      assert frame[i..i + 1] == "\n";
  }

  lemma {:induction false} EventsOfPackets(packets: seq<Packet>, read: BodyReader)
    requires forall i :: 0 <= i < |packets| ==> WellFormed(packets[i])
    ensures EventsOf(Packed(packets), read) == BodiesRead(packets, read)
  {
    if packets != [] {
      var front, last := packets[..|packets| - 1], packets[|packets| - 1];
      EventsOfPackets(front, read);
      assert Packed(packets)[..|packets| - 1] == Packed(front);
      match last
      case Event(m) => MessageDelivers(m, read);
      case Other(frame) => OtherDeliversNothing(frame, read);
    }
  }

  /** A SockJS message packed from well-formed MESSAGE frames and any others delivers exactly the readable
      bodies of the former, once each and in order. */
  lemma DeliversBodiesInOrder(packets: seq<Packet>, read: BodyReader)
    requires forall i :: 0 <= i < |packets| ==> WellFormed(packets[i])
    ensures Delivered("a" + EncodeFrames(Packed(packets)), read) == BodiesRead(packets, read)
  {
    var text := EncodeFrames(Packed(packets));
    assert ("a" + text)[1..] == text;
    FramesRoundTrip(Packed(packets));
    EventsOfPackets(packets, read);
  }

  /** Messages of any other kind deliver nothing, and neither does an array that is not one of strings. */
  lemma OtherMessagesDeliverNothing(message: string, read: BodyReader)
    requires message == "" || message[0] != 'a' || ReadFrames(message[1..]).None?
    ensures Delivered(message, read) == []
  {
  }
}
