/**
 * The server-sent-events framing of `writeSseMessage`: an `event:` line, one
 * `data:` line and blank lines (section 9.2 of the WHATWG HTML Living Standard).
 * `Parse` is the inverse of `Frames` on the concatenated stream.
 */
module Sse {
  import opened Base

  /** The event-name line followed by the data field name. */
  const Header: string := "event: message\n" + "data: "

  /** What follows the data: the line end of the data line, then two empty lines. */
  const Trailer: string := "\n" + "\n\n"

  /** The text written for one message whose payload is `data`. */
  function Frame(data: string): (f: string)
    ensures |f| == |Header| + |data| + |Trailer|
    ensures f[..|Header|] == Header
    ensures f[|Header|..|Header| + |data|] == data
    ensures f[|Header| + |data|..] == Trailer
  {
    "event: message\n" + ("data: " + data + "\n") + "\n\n"
  }

  /** The text written for a sequence of messages, in order. */
  function Frames(ds: seq<string>): (text: string)
    ensures ds == [] <==> text == []
  {
    if ds == [] then [] else Frame(ds[0]) + Frames(ds[1..])
  }

  /** The position of the first line feed in `s`, or `|s|` when there is none. */
  function LineEnd(s: string): (n: nat)
    ensures n <= |s|
    ensures forall k :: 0 <= k < n ==> s[k] != '\n'
    ensures n < |s| ==> s[n] == '\n'
  {
    if s == [] || s[0] == '\n' then 0 else 1 + LineEnd(s[1..])
  }

  /**
   * Splits a stream back into the data payloads of its frames; `None` when
   * the text is not a concatenation of frames.
   */
  function Parse(text: string): (r: Option<seq<string>>)
    ensures r.Some? ==> forall k :: 0 <= k < |r.value| ==> '\n' !in r.value[k]
    decreases |text|
  {
    if text == [] then Some([])
    else if |text| < |Header| || text[..|Header|] != Header then None
    else
      var body := text[|Header|..];
      var n := LineEnd(body);
      if |body| - n < |Trailer| || body[n..n + |Trailer|] != Trailer then None
      else
        match Parse(body[n + |Trailer|..])
        case None => None
        case Some(ds) => Some([body[..n]] + ds)
  }

  /** The first line feed after the header of a frame is the end of its data line. */
  lemma LineEndOfFrameBody(data: string, rest: string)
    requires '\n' !in data
    ensures LineEnd(data + Trailer + rest) == |data|
  {
    var s := data + Trailer + rest;
    assert s[|data|] == '\n';
  }

  /** Parsing a frame followed by more text peels off exactly that frame's payload. */
  lemma ParseFrameThen(data: string, rest: string)
    requires '\n' !in data
    ensures Parse(Frame(data) + rest) ==
      (match Parse(rest) case None => None case Some(ds) => Some([data] + ds))
  {
    var text := Frame(data) + rest;
    assert text == Header + (data + Trailer + rest);
    assert text[..|Header|] == Header;
    var body := text[|Header|..];
    assert body == data + Trailer + rest;
    LineEndOfFrameBody(data, rest);
    assert body[|data|..|data| + |Trailer|] == Trailer;
    assert body[|data| + |Trailer|..] == rest;
    assert body[..|data|] == data;
  }

  /** A stream of frames whose payloads hold no line feed parses back to those payloads. */
  lemma {:induction false} ParseFrames(ds: seq<string>)
    requires forall k :: 0 <= k < |ds| ==> '\n' !in ds[k]
    ensures Parse(Frames(ds)) == Some(ds)
  {
    if ds != [] {
      var tail := ds[1..];
      assert forall k :: 0 <= k < |tail| ==> tail[k] == ds[k + 1];
      ParseFrames(tail);
      assert '\n' !in ds[0];
      ParseFrameThen(ds[0], Frames(tail));
      assert Frames(ds) == Frame(ds[0]) + Frames(tail);
      assert [ds[0]] + tail == ds;
    }
  }

  /** One frame alone: its data line gives back the payload. */
  lemma FrameRoundTrip(data: string)
    requires '\n' !in data
    ensures Parse(Frame(data)) == Some([data])
  {
    ParseFrames([data]);
    assert Frames([data]) == Frame(data);
  }
}
