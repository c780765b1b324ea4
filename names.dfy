/** The two name sanitisers: counter names (`getCounterName`) and the audio file names that
    travel from `playMedia` to the overlay page and back to the audio route (`getAudioFileName`). */
module Names {
  import opened Wrappers
  import opened Text

  /** The class `[a-zA-Z0-9_-]`. */
  predicate IsCounterChar(c: char) {
    'a' <= c <= 'z' || 'A' <= c <= 'Z' || '0' <= c <= '9' || c == '_' || c == '-'
  }

  /** The class `[.aaa-zA-Z0-9_-]`, that is `[.a-zA-Z0-9_-]`. */
  predicate IsAudioChar(c: char) {
    c == '.' || IsCounterChar(c)
  }

  /** `getCounterName`: drops every character outside `[a-zA-Z0-9_-]`. */
  function CounterName(s: string): (r: string)
    ensures forall i :: 0 <= i < |r| ==> IsCounterChar(r[i])
  {
    Filter(s, IsCounterChar)
  }

  /** A counter name is already clean: sanitising it again changes nothing. */
  lemma CounterNameIdempotent(s: string)
    ensures CounterName(CounterName(s)) == CounterName(s)
  {
    FilterIdempotent(s, IsCounterChar);
  }

  predicate IsSlash(c: char) { c == '/' }

  predicate IsNotLineTerminator(c: char) { !IsLineTerminator(c) }

  // `s.replace(/[/]*audio[/]*/, "")`. The leftmost match starts at the run of slashes just
  // before the first "audio" and, the stars being greedy, ends after the run of slashes just
  // after it.
  function StripAudio(s: string): string {
    match IndexOf(s, "audio")
    case None => s
    case Some(p) =>
      var q := p - SpanBack(s[..p], IsSlash);
      var e := p + 5 + Span(s[p + 5..], IsSlash);
      s[..q] + s[e..]
  }

  /** `s.replace(/.*[/]/, "")`. `.` does not match a line terminator, so the leftmost match
      starts at the beginning of the line holding the first '/' and, greedily, ends at the last
      '/' of that line. */
  function StripDirectories(s: string): string {
    match IndexOf(s, "/")
    case None => s
    case Some(f) =>
      var lineStart := f - SpanBack(s[..f], IsNotLineTerminator);
      var lineEnd := f + Span(s[f..], IsNotLineTerminator);
      var lastSlash := lineEnd - SpanBack(s[f..lineEnd], c => c != '/') - 1;
      s[..lineStart] + s[lastSlash + 1..]
  }

  /** `getAudioFileName`: removes the "audio" directory part and any directory prefix, then
      every character outside `[.a-zA-Z0-9_-]`. */
  function AudioFileName(s: string): (r: string)
    ensures forall i :: 0 <= i < |r| ==> IsAudioChar(r[i])
    ensures '/' !in r
  {
    var r := Filter(StripDirectories(StripAudio(s)), IsAudioChar);
    assert forall i :: 0 <= i < |r| ==> r[i] != '/';
    r
  }

  lemma StripAudioServed(g: string)
    requires g == [] || g[0] != '/'
    ensures StripAudio("/audio/" + g) == g
  {
    var s := "/audio/" + g;
    assert OccursAt(s, "audio", 1);
    assert !OccursAt(s, "audio", 0) by { assert s[0] == '/'; }
    var p := IndexOf(s, "audio").value;
    assert p == 1;
    assert s[..1] == "/";
    assert s[6..] == "/" + g;
    assert Span(s[6..], IsSlash) == 1 by {
      assert s[6..][1..] == g;
    }
    assert s[7..] == g;
  }

  lemma StripDirectoriesNoSlash(s: string)
    requires '/' !in s
    ensures StripDirectories(s) == s
  {
  }

  /** The name `playMedia` pushes to the overlay page comes back on the audio route as
      "/audio/<name>", and the server's sanitiser resolves it to that very name. */
  lemma AudioFileNameRoundTrip(f: string)
    ensures AudioFileName("/audio/" + AudioFileName(f)) == AudioFileName(f)
  {
    var g := AudioFileName(f);
    StripAudioServed(g);
    StripDirectoriesNoSlash(g);
    FilterKeepsAll(g, IsAudioChar);
  }
}
