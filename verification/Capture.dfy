/** Reading a stream into a bounded buffer, over an alphabet of one-byte characters. */
module Capture {
  import opened Text

  /** The first cap bytes. */
  function First(stream: string, cap: nat): string {
    if |stream| > cap then stream[..cap] else stream
  }

  /** One chunk more, into what is left of the room. */
  lemma FirstOfJoin(a: string, b: string, cap: nat)
    ensures var room := cap - |First(a, cap)|;
            First(a + b, cap) == First(a, cap) + First(b, room)
  {}

  /** The buffer and the flag that run_command shares with _drain. */
  class Sink {
    var bytes: string
    var truncated: bool

    constructor ()
      ensures bytes == "" && !truncated
    {
      bytes, truncated := "", false;
    }

    /** _drain: reads to the end of the stream, keeping what fits. */
    method Drain(chunks: seq<string>, cap: nat)
      requires bytes == "" && !truncated
      modifies this
      ensures bytes == if |Arrived(chunks)| > cap then Arrived(chunks)[..cap] else Arrived(chunks)
      ensures truncated == (|Arrived(chunks)| > cap)
    {
      var i := 0;
      while i < |chunks| && chunks[i] != ""
        invariant i <= |chunks|
        invariant forall j :: 0 <= j < i ==> chunks[j] != ""
        invariant bytes == First(Arrived(chunks[..i]), cap)
        invariant truncated == (|Arrived(chunks[..i])| > cap)
      {
        var chunk := chunks[i];
        ArrivedStep(chunks, i);
        FirstOfJoin(Arrived(chunks[..i]), chunk, cap);
        var room := cap - |bytes|;
        if room > 0 {
          bytes := bytes + First(chunk, room);
        }
        if |chunk| > room {
          truncated := true;
        }
        i := i + 1;
      }
      ArrivedAll(chunks, i);
    }
  }

  /** All chunks of a response body, empty ones included. */
  function Joined(chunks: seq<string>): string {
    if chunks == [] then "" else Joined(chunks[..|chunks| - 1]) + chunks[|chunks| - 1]
  }

  lemma {:induction false} JoinedGrows(chunks: seq<string>, i: nat)
    requires i <= |chunks|
    ensures Joined(chunks[..i]) <= Joined(chunks)
    decreases |chunks|
  {
    if i < |chunks| {
      assert chunks[..|chunks| - 1][..i] == chunks[..i];
      JoinedGrows(chunks[..|chunks| - 1], i);
    } else {
      assert chunks[..i] == chunks;
    }
  }

  /** On a stream without empty chunks both loops are about the same text. */
  lemma {:induction false} JoinedIsArrived(chunks: seq<string>)
    requires "" !in chunks
    ensures Joined(chunks) == Arrived(chunks)
  {
    if chunks != [] {
      var n := |chunks| - 1;
      ArrivedStep(chunks, n);
      assert chunks[..n + 1] == chunks;
      JoinedIsArrived(chunks[..n]);
    }
  }

  /** The body loop of _http_capped: the same bytes and flag, and it stops at the chunk that is too much. */
  method HttpCapped(chunks: seq<string>, cap: nat) returns (bytes: string, truncated: bool, read: nat)
    ensures bytes == if |Joined(chunks)| > cap then Joined(chunks)[..cap] else Joined(chunks)
    ensures truncated == (|Joined(chunks)| > cap)
    ensures read <= |chunks|
    ensures if truncated then read > 0 && |Joined(chunks[..read - 1])| <= cap else read == |chunks|
  {
    bytes, truncated, read := "", false, 0;
    while read < |chunks|
      invariant read <= |chunks| && !truncated
      invariant bytes == Joined(chunks[..read]) && |bytes| <= cap
    {
      var chunk := chunks[read];
      assert chunks[..read + 1][..read] == chunks[..read];
      FirstOfJoin(Joined(chunks[..read]), chunk, cap);
      var room := cap - |bytes|;
      if room > 0 {
        bytes := bytes + First(chunk, room);
      }
      read := read + 1;
      if |chunk| > room {
        truncated := true;
        JoinedGrows(chunks, read);
        assert First(Joined(chunks), cap) == Joined(chunks[..read])[..cap];
        assert chunks[..read - 1] == chunks[..read][..read - 1];
        return;
      }
    }
    assert chunks[..read] == chunks;
  }
}
