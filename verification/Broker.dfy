/** The broker's stream of requests and responses: one line in, at most one
    response out, whatever the line holds. */
module Broker {
  import opened Text
  import opened TextProofs
  import opened Sums
  import opened LineReader

  const MAX_LINE: nat := 1_048_576

  /** The two decoders the stream is read with: `str::from_utf8` and the request
      parser. */
  datatype Decoders<!Request> = Decoders(utf8: seq<Byte> -> Option<string>, json: string -> Option<Request>)

  /** A response: to a line over the limit, to one that is no request, or what
      handling the request gave. */
  datatype Reply<Request> = TooLong | NotARequest | Handled(request: Request)

  datatype Stats = Stats(requests: nat, responses: nat, malformed: nat)

  /** What a line, as read, is answered with, if it is answered. */
  function ReplyTo<Request>(d: Decoders<Request>, raw: seq<Byte>): Option<Reply<Request>> {
    if |raw| > MAX_LINE then Some(TooLong)
    else
      var text := d.utf8(raw);
      var line := if text.Some? then Trim(text.value) else "";
      if line == "" then None
      else
        var request := d.json(line);
        Some(if request.Some? then Handled(request.value) else NotARequest)
  }

  /** The answers to a list of lines, in order. */
  function Answers<Request>(d: Decoders<Request>, lines: seq<seq<Byte>>): seq<Reply<Request>> {
    if lines == [] then []
    else
      var first := ReplyTo(d, Capped(lines[0], MAX_LINE));
      (if first.Some? then [first.value] else []) + Answers(d, lines[1..])
  }

  /** The answers to a stream. */
  function Served<Request>(d: Decoders<Request>, data: seq<Byte>): seq<Reply<Request>> {
    Answers(d, Pieces(data))
  }

  function CountMalformed<Request>(replies: seq<Reply<Request>>): nat {
    if replies == [] then 0
    else CountMalformed(replies[..|replies| - 1]) + if replies[|replies| - 1].Handled? then 0 else 1
  }

  function StatsOf<Request>(replies: seq<Reply<Request>>): Stats {
    Stats(|replies|, |replies|, CountMalformed(replies))
  }

  // ---------------------------------------------------------------------------
  // Which lines are answered
  // ---------------------------------------------------------------------------

  /** A line is answered exactly when it is over the limit or is readable and not
      blank. So a line that is not UTF-8 gets no response at all; and since the
      newline counts, a line whose text is exactly at the limit is over it. */
  lemma AnsweredIff<Request>(d: Decoders<Request>, piece: seq<Byte>)
    ensures
      var reply := ReplyTo(d, Capped(piece, MAX_LINE));
      && (reply.Some? <==> |piece| > MAX_LINE || (d.utf8(piece).Some? && !Blank(d.utf8(piece).value)))
      && (reply == Some(TooLong) <==> |piece| > MAX_LINE)
  {
    if d.utf8(piece).Some? {
      TrimBlankIff(d.utf8(piece).value);
    }
  }

  /** The text a line within the limit holds: what it decodes to, white space
      around it aside. */
  ghost predicate Holds<Request>(d: Decoders<Request>, piece: seq<Byte>, text: string) {
    && |piece| <= 1_048_576
    && Solid(text)
    && d.utf8(piece).Some?
    && exists before, behind :: Padded(d.utf8(piece).value, before, text, behind)
  }

  lemma HoldsIff<Request>(d: Decoders<Request>, piece: seq<Byte>, text: string)
    ensures Holds(d, piece, text) <==>
            |piece| <= MAX_LINE && d.utf8(piece).Some? && Trim(d.utf8(piece).value) == text != ""
  {
    if d.utf8(piece).Some? {
      TrimIff(d.utf8(piece).value, text);
    }
  }

  /** A line is handled as a request exactly when it is within the limit and holds
      text that parses as that request. */
  lemma HandledIff<Request>(d: Decoders<Request>, piece: seq<Byte>, request: Request)
    ensures ReplyTo(d, Capped(piece, MAX_LINE)) == Some(Handled(request)) <==>
            exists text :: Holds(d, piece, text) && d.json(text) == Some(request)
  {
    if |piece| <= MAX_LINE {
      TextOf(d, piece);
    }
    if text :| Holds(d, piece, text) && d.json(text) == Some(request) {
      HoldsIff(d, piece, text);
    }
  }

  /** It is refused as none exactly when it is within the limit and holds text that
      does not parse. */
  lemma RefusedIff<Request>(d: Decoders<Request>, piece: seq<Byte>)
    ensures ReplyTo(d, Capped(piece, MAX_LINE)) == Some(NotARequest) <==>
            exists text :: Holds(d, piece, text) && d.json(text) == None
  {
    if |piece| <= MAX_LINE {
      TextOf(d, piece);
    }
    if text :| Holds(d, piece, text) && d.json(text) == None {
      HoldsIff(d, piece, text);
    }
  }

  lemma TextOf<Request>(d: Decoders<Request>, piece: seq<Byte>)
    requires |piece| <= MAX_LINE
    ensures d.utf8(piece).Some? && Trim(d.utf8(piece).value) != "" ==>
              Holds(d, piece, Trim(d.utf8(piece).value))
  {
    if d.utf8(piece).Some? {
      HoldsIff(d, piece, Trim(d.utf8(piece).value));
    }
  }

  // ---------------------------------------------------------------------------
  // One line does not affect another
  // ---------------------------------------------------------------------------

  lemma {:induction false} AnswersOfBoth<Request>(d: Decoders<Request>, a: seq<seq<Byte>>, b: seq<seq<Byte>>)
    ensures Answers(d, a + b) == Answers(d, a) + Answers(d, b)
  {
    if a == [] {
      assert a + b == b;
    } else {
      var first := ReplyTo(d, Capped(a[0], MAX_LINE));
      AnswersOfBoth(d, a[1..], b);
      assert (a + b)[1..] == a[1..] + b;
      Regroup(if first.Some? then [first.value] else [], Answers(d, a[1..]), Answers(d, b));
    }
  }

  /** Whatever came before a newline, the rest of the stream is answered as if
      it were alone: a bad line costs its own response and no other. */
  lemma LinesAreIndependent<Request>(d: Decoders<Request>, before: seq<Byte>, after: seq<Byte>)
    requires before == [] || Terminated(before)
    ensures Served(d, before + after) == Served(d, before) + Served(d, after)
  {
    NewlineSeparates(before, after);
    AnswersOfBoth(d, Pieces(before), Pieces(after));
  }

  /** Every request is answered, and no more are malformed than there are. */
  lemma {:induction false} MalformedAreRequests<Request>(replies: seq<Reply<Request>>)
    ensures StatsOf(replies).responses == StatsOf(replies).requests
    ensures StatsOf(replies).malformed <= StatsOf(replies).requests
    ensures StatsOf(replies).malformed == 0 <==> forall k :: 0 <= k < |replies| ==> replies[k].Handled?
  {
    if replies != [] {
      MalformedAreRequests(replies[..|replies| - 1]);
    }
  }

  /** A piece of a stream that counts as malformed: over the limit, or with text
      that is no request. */
  ghost predicate IsMalformed<Request>(d: Decoders<Request>, piece: seq<Byte>) {
    |piece| > 1_048_576 || exists text :: Holds(d, piece, text) && d.json(text) == None
  }

  ghost predicate IsRequest<Request>(d: Decoders<Request>, piece: seq<Byte>) {
    exists text :: Holds(d, piece, text) && d.json(text) != None
  }

  ghost function HowMany(pieces: seq<seq<Byte>>, wanted: seq<Byte> -> bool): nat {
    if pieces == [] then 0 else (if wanted(pieces[0]) then 1 else 0) + HowMany(pieces[1..], wanted)
  }

  lemma {:induction false} MalformedAppend<Request>(a: seq<Reply<Request>>, b: seq<Reply<Request>>)
    ensures CountMalformed(a + b) == CountMalformed(a) + CountMalformed(b)
  {
    if b == [] {
      assert a + b == a;
    } else {
      assert (a + b)[..|a + b| - 1] == a + b[..|b| - 1];
      MalformedAppend(a, b[..|b| - 1]);
    }
  }

  lemma {:induction false} AnswersCount<Request>(d: Decoders<Request>, pieces: seq<seq<Byte>>)
    ensures
      var bad, good := HowMany(pieces, p => IsMalformed(d, p)), HowMany(pieces, p => IsRequest(d, p));
      CountMalformed(Answers(d, pieces)) == bad && |Answers(d, pieces)| == bad + good
  {
    if pieces != [] {
      var reply := ReplyTo(d, Capped(pieces[0], MAX_LINE));
      AnswersCount(d, pieces[1..]);
      MalformedAppend(if reply.Some? then [reply.value] else [], Answers(d, pieces[1..]));
      OneCounts(d, pieces[0]);
    }
  }

  lemma OneCounts<Request>(d: Decoders<Request>, piece: seq<Byte>)
    ensures
      var reply := ReplyTo(d, Capped(piece, MAX_LINE));
      && (IsMalformed(d, piece) <==> reply.Some? && !reply.value.Handled?)
      && (IsRequest(d, piece) <==> reply.Some? && reply.value.Handled?)
  {
    AnsweredIff(d, piece);
    RefusedIff(d, piece);
    var reply := ReplyTo(d, Capped(piece, MAX_LINE));
    if reply.Some? && reply.value.Handled? {
      HandledIff(d, piece, reply.value.request);
    }
    if text :| Holds(d, piece, text) && d.json(text) != None {
      HandledIff(d, piece, d.json(text).value);
    }
  }

  /** What the counters of a whole stream count. */
  lemma CountersCount<Request>(d: Decoders<Request>, data: seq<Byte>)
    ensures
      var pieces, stats := Pieces(data), StatsOf(Served(d, data));
      && stats.malformed == HowMany(pieces, p => IsMalformed(d, p))
      && stats.requests == stats.responses
         == HowMany(pieces, p => IsMalformed(d, p)) + HowMany(pieces, p => IsRequest(d, p))
  {
    AnswersCount(d, Pieces(data));
  }

  // ---------------------------------------------------------------------------
  // The server
  // ---------------------------------------------------------------------------

  /** Where responses are written, one to a line; a write may fail. */
  class Sink<Request> {
    var written: seq<Reply<Request>>

    constructor ()
      ensures written == []
    {
      written := [];
    }

    method Write(reply: Reply<Request>) returns (ok: bool)
      modifies this
      ensures written == if ok then old(written) + [reply] else old(written)
    {
      ok := *;
      if ok {
        written := written + [reply];
      }
    }
  }

  /** `so` was written after `before`: the answers to `data` but for those to
      the rest of it. */
  ghost predicate Serving<Request>(d: Decoders<Request>, data: seq<Byte>, rest: seq<Byte>, so: seq<Reply<Request>>,
                                   stats: Stats)
  {
    so + Served(d, rest) == Served(d, data) && stats == StatsOf(so)
  }

  /** One line answered. */
  lemma OneServed<Request>(d: Decoders<Request>, data: seq<Byte>, rest: seq<Byte>, so: seq<Reply<Request>>,
                           stats: Stats)
    requires rest != [] && Serving(d, data, rest, so, stats)
    ensures
      var reply := ReplyTo(d, Capped(rest[..PieceLen(rest)], MAX_LINE));
      var left := rest[PieceLen(rest)..];
      if reply.None? then Serving(d, data, left, so, stats)
      else
        Serving(d, data, left, so + [reply.value],
                Stats(stats.requests + 1, stats.responses + 1,
                      stats.malformed + if reply.value.Handled? then 0 else 1))
  {
    var reply := ReplyTo(d, Capped(rest[..PieceLen(rest)], MAX_LINE));
    var left := Served(d, rest[PieceLen(rest)..]);
    if reply.Some? {
      Regroup(so, [reply.value], left);
    } else {
      assert [] + left == left;
    }
  }

  /** `serve_jsonl`: when neither side fails, the answers to the stream are
      written in order and counted; when one does, a prefix of them is. */
  method Serve<Request>(d: Decoders<Request>, source: Source, sink: Sink<Request>) returns (stats: Outcome<Stats>)
    modifies source, sink
    ensures stats.Ok? ==> source.rest == [] && sink.written == old(sink.written) + Served(d, old(source.rest))
    ensures stats.Ok? ==> stats.value == StatsOf(Served(d, old(source.rest)))
    ensures stats.Failed? ==> exists k :: 0 <= k <= |Served(d, old(source.rest))| &&
                                sink.written == old(sink.written) + Served(d, old(source.rest))[..k]
  {
    ghost var data, before := source.rest, sink.written;
    ghost var so: seq<Reply<Request>> := [];
    var requests, responses, malformed := 0, 0, 0;
    while true
      invariant Serving(d, data, source.rest, so, Stats(requests, responses, malformed))
      invariant sink.written == before + so
      decreases |source.rest|
    {
      SoIsPrefix(d, data, source.rest, so, Stats(requests, responses, malformed));
      ghost var rest := source.rest;
      var raw := ReadLine(source, MAX_LINE);
      if raw.Failed? {
        return Failed;
      }
      if raw.value.None? {
        break;
      }
      OneServed(d, data, rest, so, Stats(requests, responses, malformed));
      var reply := ReplyTo(d, raw.value.value);
      if reply.Some? {
        var ok := sink.Write(reply.value);
        if !ok {
          return Failed;
        }
        so := so + [reply.value];
        requests, responses := requests + 1, responses + 1;
        malformed := malformed + if reply.value.Handled? then 0 else 1;
      }
    }
    stats := Ok(Stats(requests, responses, malformed));
  }

  lemma SoIsPrefix<Request>(d: Decoders<Request>, data: seq<Byte>, rest: seq<Byte>, so: seq<Reply<Request>>,
                            stats: Stats)
    requires Serving(d, data, rest, so, stats)
    ensures |so| <= |Served(d, data)| && so == Served(d, data)[..|so|]
    ensures rest == [] ==> so == Served(d, data)
  {
  }
}
