/** What `sendChat` and `playMedia` produce: template substitution and the lines and media
    actions one call emits. */
module Responder {
  import opened Wrappers
  import opened Text
  import opened Names
  import opened Settings

  /** The positional placeholder `_i_`. */
  function Placeholder(i: nat): string {
    "_" + NatToString(i) + "_"
  }

  /** `replacements[i]` is truthy: present and not empty. */
  predicate HasCapture(caps: seq<string>, i: nat) {
    i < |caps| && caps[i] != []
  }

  /** The positional loop from index `i` on: `_i_`, `_i+1_`, ... up to `_9_` are each replaced
      at their first occurrence, stopping at the first index without a capture. */
  function Positional(s: string, caps: seq<string>, i: nat): string
    requires 1 <= i
    decreases 10 - i
  {
    if i <= 9 && HasCapture(caps, i) then Positional(ReplaceFirst(s, Placeholder(i), caps[i]), caps, i + 1)
    else s
  }

  /** The text `sendChat` sends for a template: the first USERNAME becomes the user name
      (when there is one), then the positional placeholders are filled from the captures.
      `caps[0]` is the whole match and is never used. */
  function Render(template: string, username: string, caps: seq<string>): string {
    Positional(if username != [] then ReplaceFirst(template, "USERNAME", username) else template, caps, 1)
  }

  /** A media action: a file name pushed to the overlay page, a counter value pushed to it,
      or a media-player command line launched. */
  datatype Effect = PlayAudio(file: string) | CounterUpdate(name: string, value: int) | Launch(command: string)

  /** A reaction waiting on `setTimeout`. */
  datatype Delayed =
    | ShoutOut(delayMs: int, target: string, username: string, command: Payload, captures: seq<string>)
    | TimerAlertDue(delayMs: int, target: string, username: string, timerName: string)

  /** The fixed shout-out delay. */
  const ShoutOutDelayMs := 5000

  /** The lines one `sendChat(target, user, message, captures)` call sends, `k` being its
      random draw: none when the target or the message is empty, else one rendered line. */
  function ChatLines(target: string, msg: Option<Payload>, username: string, caps: seq<string>, k: nat)
    : (r: seq<string>)
    ensures |r| <= 1
    ensures |r| == 1 <==> target != [] && msg.Some? && NonEmpty(msg.value)
    ensures |r| == 1 && msg.value.Choices? ==>
      exists e :: e in msg.value.options && r[0] == Render(e, username, caps)
  {
    if target != [] && msg.Some? && NonEmpty(msg.value) then [Render(Choose(msg.value, k), username, caps)]
    else []
  }

  /** The file `playMedia` plays for a chosen entry: the first USERNAME replaced by the user
      name when there is one. The source's positional loop searches for `_<file>_`, which is
      longer than the file name and so never occurs (see `MediaPositionalNoOp`). */
  function MediaFile(file: string, username: string): string {
    if username != [] then ReplaceFirst(file, "USERNAME", username) else file
  }

  lemma MediaPositionalNoOp(file: string, rep: string)
    ensures ReplaceFirst(file, "_" + file + "_", rep) == file
  {
    ReplaceFirstSpec(file, "_" + file + "_", rep);
  }

  /** The media actions one `playMedia` call takes, `k` being its random draw: nothing for an
      empty entry; the sanitised file name to the overlay page when AUDIO_FILE_PATH is set;
      else the media-player command with MEDIAFILE replaced; else nothing (an error is logged). */
  function MediaEffects(cfg: Config, media: Option<Payload>, username: string, k: nat): (r: seq<Effect>)
    ensures |r| <= 1
    ensures |r| == 1 <==> media.Some? && NonEmpty(media.value) && (cfg.audioFilePath || cfg.mediaPlayerCommand != [])
    ensures |r| == 1 && r[0].PlayAudio? ==> '/' !in r[0].file
  {
    if media.Some? && NonEmpty(media.value) then
      var file := MediaFile(Choose(media.value, k), username);
      if cfg.audioFilePath then [PlayAudio(AudioFileName(file))]
      else if cfg.mediaPlayerCommand != [] then [Launch(ReplaceFirst(cfg.mediaPlayerCommand, "MEDIAFILE", file))]
      else []
    else []
  }

  // ---------------------------------------------------------------- properties of Render

  lemma PlaceholderOne()
    ensures Placeholder(1) == "_1_"
  {
  }

  /** With one capture, the positional loop replaces `_1_` once and stops. */
  lemma PositionalOneCapture(s: string, c: string)
    requires c != []
    ensures Positional(s, ["", c], 1) == ReplaceFirst(s, "_1_", c)
  {
    PlaceholderOne();
  }

  /** With a user name and a single capture, rendering is two first-occurrence replacements. */
  lemma RenderOneCapture(t: string, name: string, caps: seq<string>)
    requires name != [] && |caps| == 2 && caps[1] != []
    ensures Render(t, name, caps) == ReplaceFirst(ReplaceFirst(t, "USERNAME", name), "_1_", caps[1])
  {
    PositionalOneCapture(ReplaceFirst(t, "USERNAME", name), caps[1]);
  }

  /** The responder's worked example: the USERNAME and the `_1_` of a template are filled in
      with the user name and the first capture. */
  lemma RenderExample(pre: string, mid: string, post: string, name: string, c: string)
    requires name != [] && c != []
    requires 'U' !in pre && '_' !in pre && '_' !in name && '_' !in mid
    ensures Render(pre + "USERNAME" + mid + "_1_" + post, name, ["", c]) == pre + name + mid + c + post
  {
    var t := pre + "USERNAME" + mid + "_1_" + post;
    assert t == pre + "USERNAME" + (mid + "_1_" + post);
    ReplaceFirstSplice(pre, "USERNAME", name, mid + "_1_" + post);
    var q := pre + name + mid;
    assert pre + name + (mid + "_1_" + post) == q + "_1_" + post;
    assert forall j :: 0 <= j < |q| ==> q[j] != '_' by {
      forall j | 0 <= j < |q| ensures q[j] != '_' {
        if j < |pre| {
          assert q[j] == pre[j];
        } else if j < |pre| + |name| {
          assert q[j] == name[j - |pre|];
        } else {
          assert q[j] == mid[j - |pre| - |name|];
        }
      }
    }
    ReplaceFirstSplice(q, "_1_", c, post);
    RenderOneCapture(t, name, ["", c]);
  }

  /** Only the first USERNAME is replaced: any later one in the template stays. */
  lemma RenderFirstUsernameOnly(rest: string, name: string)
    requires name != []
    ensures Render("USERNAME" + rest, name, []) == name + rest
  {
    ReplaceFirstPrefix("USERNAME", rest, name);
  }

  /** The loop stops at the first missing or empty capture: from an index without a capture
      nothing more is replaced, whatever later captures there are. */
  lemma PositionalStops(s: string, caps: seq<string>, j: nat)
    requires 1 <= j && !HasCapture(caps, j)
    ensures Positional(s, caps, j) == s
  {
  }

  /** Captures after the first missing or empty one are never used: rendering with all the
      captures is rendering with those before index `k` only. */
  lemma {:induction false} PositionalIgnoresLater(s: string, caps: seq<string>, i: nat, k: nat)
    requires 1 <= i <= k <= |caps| && !HasCapture(caps, k)
    ensures Positional(s, caps, i) == Positional(s, caps[..k], i)
    decreases 10 - i
  {
    if i <= 9 && HasCapture(caps, i) {
      assert i < k;
      assert caps[..k][i] == caps[i];
      PositionalIgnoresLater(ReplaceFirst(s, Placeholder(i), caps[i]), caps, i + 1, k);
    }
  }

  /** With no first capture, only the user name is filled in; with a first missing capture at
      `k`, only `_1_` to `_{k-1}_` are filled in after it. */
  lemma RenderStopsAtEmptyCapture(t: string, name: string, caps: seq<string>, k: nat)
    requires 1 <= k <= |caps| && !HasCapture(caps, k)
    ensures Render(t, name, caps) == Render(t, name, caps[..k])
    ensures k == 1 ==> Render(t, name, caps) == if name != [] then ReplaceFirst(t, "USERNAME", name) else t
  {
    PositionalIgnoresLater(if name != [] then ReplaceFirst(t, "USERNAME", name) else t, caps, 1, k);
  }

  /** Substitution is applied to the text produced so far, so a `_1_` inside the user name is
      filled with the first capture. */
  lemma RenderReexpandsUserName(a: string, b: string, c: string)
    requires c != [] && '_' !in a
    ensures Render("USERNAME", a + "_1_" + b, ["", c]) == a + c + b
  {
    var name := a + "_1_" + b;
    ReplaceFirstPrefix("USERNAME", [], name);
    assert "USERNAME" + [] == "USERNAME" && name + [] == name;
    ReplaceFirstSplice(a, "_1_", c, b);
    RenderOneCapture("USERNAME", name, ["", c]);
  }
}
