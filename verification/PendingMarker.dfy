/** The text of the restore-pending marker: four words with the fingerprints of the pair being restored and
    of the pair that was live, as it is written, as it is read back, and as it is read when it was cut short. */
module PendingMarker {
  import opened Wrappers

  import opened DataDirectory

  /** The database file and its write-ahead log, where present. */
  datatype Pair = Pair(database: Option<Bytes>, wal: Option<Bytes>)

  type Fingerprint = Bytes -> Bytes

  const SPACE: byte := 32
  const NEWLINE: byte := 10
  // "absent" and "none"
  const ABSENT: Bytes := [97, 98, 115, 101, 110, 116]
  const NONE: Bytes := [110, 111, 110, 101]

  predicate IsSpace(b: byte) {
    b == SPACE || 9 <= b <= 13
  }

  predicate IsWord(w: Bytes) {
    w != [] && forall b <- w :: !IsSpace(b)
  }

  /** Fingerprints are words, never one of the two fixed ones, and tell contents apart. */
  ghost predicate TellsApart(fingerprint: Fingerprint) {
    && (forall c: Bytes :: IsWord(fingerprint(c)) && fingerprint(c) != ABSENT && fingerprint(c) != NONE)
    && (forall c: Bytes, d: Bytes :: fingerprint(c) == fingerprint(d) ==> c == d)
  }

  function WordFor(fingerprint: Fingerprint, content: Option<Bytes>, missing: Bytes): Bytes {
    if content.Some? then fingerprint(content.value) else missing
  }

  function Words(fingerprint: Fingerprint, restored: Pair, previous: Pair): seq<Bytes> {
    [WordFor(fingerprint, restored.database, ABSENT), WordFor(fingerprint, restored.wal, NONE),
     WordFor(fingerprint, previous.database, ABSENT), WordFor(fingerprint, previous.wal, NONE)]
  }

  /** Words with a space between them and a newline at the end. */
  function Joined(words: seq<Bytes>): Bytes
    requires words != []
  {
    if |words| == 1 then words[0] + [NEWLINE] else words[0] + ([SPACE] + Joined(words[1..]))
  }

  /** The whole marker. */
  function MarkerText(fingerprint: Fingerprint, restored: Pair, previous: Pair): Bytes {
    Joined(Words(fingerprint, restored, previous))
  }

  /** How many bytes precede the first space. */
  function WordLength(text: Bytes): (n: nat)
    ensures n <= |text|
  {
    if text == [] || IsSpace(text[0]) then 0 else 1 + WordLength(text[1..])
  }

  /** The words of a text. */
  function Tokens(text: Bytes): seq<Bytes>
    decreases |text|
  {
    if text == [] then []
    else if IsSpace(text[0]) then Tokens(text[1..])
    else [text[..WordLength(text)]] + Tokens(text[WordLength(text)..])
  }

  /** Whether the store opens: with no marker, or with one of four words of which the first two or the last
      two are those of the live pair. */
  predicate Opens(fingerprint: Fingerprint, marker: Option<Bytes>, live: Pair) {
    match marker
    case None => true
    case Some(text) =>
      var t := Tokens(text);
      && |t| == 4
      && var database, wal := WordFor(fingerprint, live.database, ABSENT), WordFor(fingerprint, live.wal, NONE);
         (database == t[0] && wal == t[1]) || (database == t[2] && wal == t[3])
  }

  // ----- Reading a text that was cut short -----

  lemma {:induction false} LengthOfWord(w: Bytes, rest: Bytes)
    requires forall b <- w :: !IsSpace(b)
    requires rest == [] || IsSpace(rest[0])
    ensures WordLength(w + rest) == |w|
  {
    if w == [] {
      assert w + rest == rest;
    } else {
      assert (w + rest)[1..] == w[1..] + rest;
      LengthOfWord(w[1..], rest);
    }
  }

  lemma FirstWord(w: Bytes, rest: Bytes)
    requires IsWord(w) && (rest == [] || IsSpace(rest[0]))
    ensures Tokens(w + rest) == [w] + Tokens(rest)
  {
    LengthOfWord(w, rest);
    assert (w + rest)[..|w|] == w && (w + rest)[|w|..] == rest;
  }

  lemma AfterSpace(b: byte, rest: Bytes)
    requires IsSpace(b)
    ensures Tokens([b] + rest) == Tokens(rest)
  {
    assert ([b] + rest)[1..] == rest;
  }

  lemma PartOfWord(w: Bytes, n: nat)
    requires IsWord(w) && n <= |w|
    ensures Tokens(w[..n]) == if n == 0 then [] else [w[..n]]
  {
    if n > 0 {
      FirstWord(w[..n], []);
      assert w[..n] + [] == w[..n];
    }
  }

  /** Where the last word begins. */
  function LastStart(words: seq<Bytes>): nat
    requires words != []
  {
    if |words| == 1 then 0 else |words[0]| + 1 + LastStart(words[1..])
  }

  lemma {:induction false} JoinedLength(words: seq<Bytes>)
    requires words != []
    ensures |Joined(words)| == LastStart(words) + |words[|words| - 1]| + 1
  {
    if |words| > 1 {
      JoinedLength(words[1..]);
    }
  }

  /** The words of a text cut short: there are as many as were written exactly when the last one was begun,
      and then all but the last are whole and the last is what there is of it. */
  lemma {:induction false} CutShort(words: seq<Bytes>, n: nat)
    requires words != [] && (forall w <- words :: IsWord(w)) && n <= |Joined(words)|
    ensures var t, last, start := Tokens(Joined(words)[..n]), words[|words| - 1], LastStart(words);
            && |t| <= |words| && (|t| == |words| <==> n > start)
            && (n > start ==>
                  t == words[..|words| - 1] + [last[..if n - start <= |last| then n - start else |last|]])
    decreases |words|
  {
    var w := words[0];
    JoinedLength(words);
    if |words| == 1 {
      if n <= |w| {
        assert Joined(words)[..n] == w[..n];
        PartOfWord(w, n);
      } else {
        assert Joined(words)[..n] == w + [NEWLINE];
        FirstWord(w, [NEWLINE]);
        AfterSpace(NEWLINE, []);
        assert [NEWLINE] + [] == [NEWLINE] && [w] + [] == [w] && w[..|w|] == w;
      }
    } else {
      CutInsideMore(words, n);
    }
  }

  lemma {:induction false} CutInsideMore(words: seq<Bytes>, n: nat)
    requires |words| > 1 && (forall w <- words :: IsWord(w)) && n <= |Joined(words)|
    ensures var t, last, start := Tokens(Joined(words)[..n]), words[|words| - 1], LastStart(words);
            && |t| <= |words| && (|t| == |words| <==> n > start)
            && (n > start ==>
                  t == words[..|words| - 1] + [last[..if n - start <= |last| then n - start else |last|]])
    decreases |words|, 0
  {
    var w, more := words[0], words[1..];
    if n <= |w| {
      assert Joined(words)[..n] == w[..n];
      PartOfWord(w, n);
    } else {
      var m := n - |w| - 1;
      assert Joined(words)[..n] == w + ([SPACE] + Joined(more)[..m]);
      FirstWord(w, [SPACE] + Joined(more)[..m]);
      AfterSpace(SPACE, Joined(more)[..m]);
      CutShort(more, m);
      assert words[..|words| - 1] == [w] + more[..|more| - 1];
    }
  }

  // ----- What opens -----

  /** A live pair is named by its two words. */
  lemma NamedByWords(fingerprint: Fingerprint, a: Pair, b: Pair)
    requires TellsApart(fingerprint)
    ensures a == b <==>
            && WordFor(fingerprint, a.database, ABSENT) == WordFor(fingerprint, b.database, ABSENT)
            && WordFor(fingerprint, a.wal, NONE) == WordFor(fingerprint, b.wal, NONE)
  {
  }

  lemma WordsAreWords(fingerprint: Fingerprint, restored: Pair, previous: Pair)
    requires TellsApart(fingerprint)
    ensures forall w <- Words(fingerprint, restored, previous) :: IsWord(w)
  {
  }

  /** Where the fourth word of the marker begins. */
  function FourthWord(fingerprint: Fingerprint, restored: Pair, previous: Pair): nat {
    LastStart(Words(fingerprint, restored, previous))
  }

  /** What the marker file has to show for the store to open: nothing at all; all four words, if the pair is
      the one from before; or the first three and some of the fourth, if it is the restored one. */
  predicate Shows(fingerprint: Fingerprint, marker: Option<Bytes>, restored: Pair, previous: Pair, live: Pair) {
    || marker.None?
    || (live == previous && |marker.value| + 1 >= |MarkerText(fingerprint, restored, previous)|)
    || (live == restored && |marker.value| > FourthWord(fingerprint, restored, previous))
  }

  /** Over a complete marker any pair is judged by the two it records; over one cut short, the untouched pair
      is: the store opens exactly when the marker shows enough of it. */
  lemma OpensByWhatIsShown(fingerprint: Fingerprint, restored: Pair, previous: Pair, n: nat, live: Pair)
    requires TellsApart(fingerprint) && n <= |MarkerText(fingerprint, restored, previous)|
    requires n < |MarkerText(fingerprint, restored, previous)| ==> live == previous
    ensures var text := Some(MarkerText(fingerprint, restored, previous)[..n]);
            Opens(fingerprint, text, live) <==> Shows(fingerprint, text, restored, previous, live)
  {
    hide Joined, Tokens, LastStart;
    var words := Words(fingerprint, restored, previous);
    WordsAreWords(fingerprint, restored, previous);
    JoinedLength(words);
    CutShort(words, n);
    NamedByWords(fingerprint, live, restored);
    NamedByWords(fingerprint, live, previous);
    var t, last, start := Tokens(MarkerText(fingerprint, restored, previous)[..n]), words[3], LastStart(words);
    if n > start {
      var shown := last[..if n - start <= |last| then n - start else |last|];
      assert t[0] == words[0] && t[1] == words[1] && t[2] == words[2] && t[3] == shown;
      assert shown == last <==> n - start >= |last|;
    }
  }

  /** A marker of any other number of words than four is refused, and no marker, whatever its text, lets more
      than two pairs open. */
  lemma AtMostTwoPairsOpen(fingerprint: Fingerprint, text: Bytes, a: Pair, b: Pair, c: Pair)
    requires TellsApart(fingerprint)
    requires Opens(fingerprint, Some(text), a) && Opens(fingerprint, Some(text), b) && Opens(fingerprint, Some(text), c)
    ensures |Tokens(text)| == 4 && (a == b || b == c || a == c)
  {
    hide Tokens;
    NamedByWords(fingerprint, a, b);
    NamedByWords(fingerprint, b, c);
    NamedByWords(fingerprint, a, c);
  }

  // ----- Fingerprints that tell contents apart exist -----

  /** Each byte as two letters, after a first one. */
  function Spelled(content: Bytes): Bytes {
    if content == [] then [65] else Spelled(content[..|content| - 1])
                                    + [65 + content[|content| - 1] / 16, 65 + content[|content| - 1] % 16]
  }

  lemma {:induction false} SpelledIsWord(content: Bytes)
    ensures |Spelled(content)| == 2 * |content| + 1 && forall b <- Spelled(content) :: 65 <= b <= 80
  {
    if content != [] {
      SpelledIsWord(content[..|content| - 1]);
    }
  }

  lemma {:induction false} SpelledTellsApart(c: Bytes, d: Bytes)
    requires Spelled(c) == Spelled(d)
    ensures c == d
    decreases |c|
  {
    SpelledIsWord(c);
    SpelledIsWord(d);
    if c != [] {
      var front, front' := c[..|c| - 1], d[..|d| - 1];
      assert Spelled(c)[..|Spelled(c)| - 2] == Spelled(front) && Spelled(d)[..|Spelled(d)| - 2] == Spelled(front');
      SpelledTellsApart(front, front');
      var x, y := c[|c| - 1], d[|d| - 1];
      assert Spelled(c)[|Spelled(c)| - 2] == 65 + x / 16 && Spelled(c)[|Spelled(c)| - 1] == 65 + x % 16;
      assert Spelled(d)[|Spelled(d)| - 2] == 65 + y / 16 && Spelled(d)[|Spelled(d)| - 1] == 65 + y % 16;
      assert x == 16 * (x / 16) + x % 16 && y == 16 * (y / 16) + y % 16;
      assert c == front + [x] && d == front' + [y];
    }
  }

  lemma FingerprintsExist()
    ensures TellsApart(Spelled)
  {
    forall c: Bytes ensures IsWord(Spelled(c)) && Spelled(c) != ABSENT && Spelled(c) != NONE {
      SpelledIsWord(c);
      assert ABSENT[0] == 97 && NONE[0] == 110;
    }
    forall c: Bytes, d: Bytes | Spelled(c) == Spelled(d) ensures c == d {
      SpelledTellsApart(c, d);
    }
  }
}
