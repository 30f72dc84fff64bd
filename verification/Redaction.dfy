/** The redactor of one run's output: private keys cut out, and a tail held back so that a secret is not cut in two. */
module Redaction {
  import opened Common
  import opened Utf8

  /** The expressions the code searches for: where a key begins, where it ends, and known secrets replaced. */
  datatype Patterns = Patterns(begins: string -> Option<(nat, nat)>, ends: string -> Option<(nat, nat)>, known: string -> string)

  ghost predicate MatchOk(text: string, found: Option<(nat, nat)>) {
    found.Some? ==> found.value.1 > 0 && found.value.0 + found.value.1 <= |text|
  }

  ghost predicate Lawful(p: Patterns) {
    forall text :: MatchOk(text, p.begins(text)) && MatchOk(text, p.ends(text))
  }

  datatype Stream = Stdout | Stderr

  datatype StreamState = StreamState(pending: string, privateKey: bool)

  const KEY_MARK := "[REDACTED_PRIVATE_KEY]"
  const MAXIMUM_PUSH: nat := 16384
  const TOO_LARGE := "REDACTION_CHUNK_TOO_LARGE"

  /** The text without private keys, and whether it ends inside one. */
  ghost function WithoutKeys(p: Patterns, privateKey: bool, text: string): (string, bool)
    requires Lawful(p)
    decreases |text|
  {
    if text == "" then ("", privateKey)
    else if privateKey then
      match p.ends(text)
      case None => ("", true)
      case Some((at, n)) => assert MatchOk(text, p.ends(text)); WithoutKeys(p, false, text[at + n..])
    else
      match p.begins(text)
      case None => (text, false)
      case Some((at, n)) =>
        assert MatchOk(text, p.begins(text));
        var (rest, inside) := WithoutKeys(p, true, text[at + n..]);
        (text[..at] + KEY_MARK + rest, inside)
  }

  ghost function Push(p: Patterns, holdback: nat, state: StreamState, text: string): (Result<string>, StreamState)
    requires Lawful(p)
  {
    if ByteLength(text) > MAXIMUM_PUSH then (Err(TOO_LARGE), state)
    else
      var was := state.privateKey;
      var (sanitized, inside) := WithoutKeys(p, was, if was then text else state.pending + text);
      if inside && was then (Ok(""), state)
      else
        var (emit, pending) := SplitHoldback(if was then state.pending + sanitized else sanitized, holdback);
        (Ok(p.known(emit)), StreamState(pending, inside))
  }

  function Flush(p: Patterns, state: StreamState): (string, StreamState) {
    (p.known(state.pending), StreamState("", false))
  }

  /** No part of the text holds a key's beginning or a known secret. */
  ghost predicate Clean(p: Patterns, text: string) {
    forall i, j :: 0 <= i <= j <= |text| ==> CleanPart(p, text[i..j])
  }

  ghost predicate CleanPart(p: Patterns, part: string) {
    p.begins(part) == None && p.known(part) == part
  }

  lemma {:induction false} SliceOfSlice(text: string, from: nat, to: nat, i: nat, j: nat)
    requires from <= to <= |text| && i <= j <= to - from
    ensures text[from..to][i..j] == text[from + i..from + j]
  {
    var a, b := text[from..to][i..j], text[from + i..from + j];
    assert |a| == |b|;
    assert forall k :: 0 <= k < |a| ==> a[k] == b[k];
  }

  lemma {:induction false} Joined(a: string, b: string, rest: string, all: string)
    requires a + (b + rest) == all
    ensures a + b + rest == all
  {
  }

  lemma {:induction false} CleanSubstring(p: Patterns, text: string, from: nat, to: nat)
    requires Clean(p, text) && from <= to <= |text|
    ensures Clean(p, text[from..to]) && CleanPart(p, text[from..to])
  {
    forall i, j | 0 <= i <= j <= to - from ensures CleanPart(p, text[from..to][i..j]) {
      SliceOfSlice(text, from, to, i, j);
    }
  }

  /** Clean text passes unchanged and whole, and what stays behind is bounded by the holdback. */
  lemma {:induction false} CleanPush(p: Patterns, holdback: nat, state: StreamState, text: string)
    requires Lawful(p) && holdback > 0 && !state.privateKey && ByteLength(text) <= MAXIMUM_PUSH && Clean(p, state.pending + text)
    ensures var (emit, next) := Push(p, holdback, state, text);
            && emit.Ok? && emit.value + next.pending == state.pending + text && !next.privateKey
            && if ByteLength(state.pending + text) <= holdback then emit.value == "" else holdback <= ByteLength(next.pending) < holdback + 4
  {
    var all := state.pending + text;
    assert all[0..|all|] == all && CleanPart(p, all[0..|all|]);
    HoldbackBounds(all, holdback);
    var n := |SplitHoldback(all, holdback).0|;
    assert all[0..n] == SplitHoldback(all, holdback).0 && CleanPart(p, all[0..n]);
  }

  class SplitSafeRedactor {
    const patterns: Patterns
    const holdbackBytes: nat
    var streams: map<Stream, StreamState>

    ghost predicate Valid()
      reads this
    {
      Lawful(patterns) && 128 <= holdbackBytes <= 8192
    }

    ghost function State(stream: Stream): StreamState
      reads this
    {
      if stream in streams then streams[stream] else StreamState("", false)
    }

    constructor (patterns: Patterns, holdbackBytes: nat)
      requires Lawful(patterns) && 128 <= holdbackBytes <= 8192
      ensures Valid() && this.patterns == patterns && this.holdbackBytes == holdbackBytes
      ensures forall stream :: State(stream) == StreamState("", false)
    {
      this.patterns, this.holdbackBytes, streams := patterns, holdbackBytes, map[];
    }

    /** The loop that cuts private keys out of what remains. */
    method RemovePrivateKeys(privateKey: bool, value: string) returns (safe: string, inside: bool)
      requires Valid()
      ensures (safe, inside) == WithoutKeys(patterns, privateKey, value)
    {
      var remaining := value;
      safe, inside := "", privateKey;
      assert "" + WithoutKeys(patterns, privateKey, value).0 == WithoutKeys(patterns, privateKey, value).0;
      while |remaining| > 0
        invariant safe + WithoutKeys(patterns, inside, remaining).0 == WithoutKeys(patterns, privateKey, value).0
        invariant WithoutKeys(patterns, inside, remaining).1 == WithoutKeys(patterns, privateKey, value).1
        decreases |remaining|
      {
        if inside {
          var found := patterns.ends(remaining);
          if found == None {
            assert safe + "" == safe;
            return;
          }
          assert MatchOk(remaining, found);
          remaining := remaining[found.value.0 + found.value.1..];
          inside := false;
        } else {
          var found := patterns.begins(remaining);
          if found == None {
            return safe + remaining, false;
          }
          assert MatchOk(remaining, found);
          Joined(safe, remaining[..found.value.0] + KEY_MARK,
                 WithoutKeys(patterns, true, remaining[found.value.0 + found.value.1..]).0, WithoutKeys(patterns, privateKey, value).0);
          safe := safe + (remaining[..found.value.0] + KEY_MARK);
          remaining := remaining[found.value.0 + found.value.1..];
          inside := true;
        }
      }
      assert safe + "" == safe;
    }

    method PushText(stream: Stream, text: string) returns (r: Result<string>)
      requires Valid()
      modifies `streams
      ensures (r, State(stream)) == Push(patterns, holdbackBytes, old(State(stream)), text)
      ensures forall other :: other != stream ==> State(other) == old(State(other))
    {
      if ByteLength(text) > MAXIMUM_PUSH {
        return Err(TOO_LARGE);
      }
      var state := if stream in streams then streams[stream] else StreamState("", false);
      var sanitized, inside := RemovePrivateKeys(state.privateKey, if state.privateKey then text else state.pending + text);
      if inside && state.privateKey {
        return Ok("");
      }
      var emit, pending := SplitWithByteHoldback(if state.privateKey then state.pending + sanitized else sanitized, holdbackBytes);
      streams := streams[stream := StreamState(pending, inside)];
      return Ok(patterns.known(emit));
    }

    method FlushText(stream: Stream) returns (safe: string)
      requires Valid()
      modifies `streams
      ensures (safe, State(stream)) == Flush(patterns, old(State(stream)))
      ensures forall other :: other != stream ==> State(other) == old(State(other))
    {
      var state := if stream in streams then streams[stream] else StreamState("", false);
      streams := streams[stream := StreamState("", false)];
      return patterns.known(state.pending);
    }
  }
}
