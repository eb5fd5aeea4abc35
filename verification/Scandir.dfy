/** The pooled, killable directory lister (`sync_scandir.ScandirWorker`): requests and answers
    share one byte stream per helper process, and a helper that does not answer is killed. */
module Scandir {
  import opened Base

  const NEWLINE: Byte := 10
  const READ_SIZE: nat := 65536

  datatype Row = Row(name: string, path: string, isDir: bool, isFile: bool)

  /** What decoding an answer line gives: no JSON, JSON without rows, or the rows. */
  datatype Decoded = NotJson | NoRowList | RowList(rows: seq<Row>)

  datatype Reason = Timeout | Unreadable | WorkerFailed

  datatype Listing = Rows(rows: seq<Row>) | NoRows(reason: Reason)

  /** What the operating system does at one turn of the read loop. */
  datatype ReadEvent = Chunk(n: nat) | NothingReady | ReadError

  /** Everything the adversary decides about one call: whether the helper is found dead, a
      spawn or the write fails, what the helper answers to a path, and how the answer's bytes
      arrive. When the events run out the deadline has passed. */
  datatype CallScript = CallScript(
    dead: bool, spawnOk: bool, writeOk: bool, answer: string -> seq<Byte>, events: seq<ReadEvent>)

  /** A helper process: the bytes it wrote or will write and nobody has read. */
  class Helper {
    var pipe: seq<Byte>

    constructor ()
      ensures pipe == []
    {
      pipe := [];
    }

    /** The helper reads one path and answers with one line. */
    method Request(path: string, answer: string -> seq<Byte>)
      modifies this
      ensures pipe == old(pipe) + answer(path) + [NEWLINE]
    {
      pipe := pipe + answer(path) + [NEWLINE];
    }

    /** `os.read`: any first part of what is there; nothing means the helper is gone. */
    method Read(n: nat) returns (chunk: seq<Byte>)
      modifies this
      ensures chunk + pipe == old(pipe) && |chunk| == Bite(n, |old(pipe)|)
    {
      var k := if n <= |pipe| then n else |pipe|;
      k := if k <= READ_SIZE then k else READ_SIZE;
      chunk := pipe[..k];
      pipe := pipe[k..];
    }
  }

  function Find(buf: seq<Byte>, b: Byte): (at: Option<nat>)
    ensures at.Some? ==> at.value < |buf| && buf[at.value] == b && b !in buf[..at.value]
    ensures at.None? ==> b !in buf
  {
    if buf == [] then None
    else if buf[0] == b then Some(0)
    else
      var rest := Find(buf[1..], b);
      if rest.None? then None
      else
        assert buf[..rest.value + 1] == [buf[0]] + buf[1..][..rest.value];
        Some(rest.value + 1)
  }

  // ----- when an answer arrives --------------------------------------------------------------------

  /** One read gives what is there, up to what arrived and to the read size. */
  function Bite(n: nat, left: nat): nat {
    var k := if n <= left then n else left;
    if k <= READ_SIZE then k else READ_SIZE
  }

  /** `left` bytes arrive in the reads to come, before the deadline and before any of them fails. */
  ghost predicate Arrives(left: nat, events: seq<ReadEvent>) {
    left == 0
    || (events != [] && events[0].Chunk? && Bite(events[0].n, left) > 0 && Arrives(left - Bite(events[0].n, left), events[1..]))
  }

  /** What some reads can carry together. */
  ghost function Capacity(events: seq<ReadEvent>): nat {
    if events == [] then 0 else (if events[0].Chunk? then Bite(events[0].n, READ_SIZE) else 0) + Capacity(events[1..])
  }

  ghost predicate Flows(events: seq<ReadEvent>) {
    forall e :: e in events ==> e.Chunk? && e.n > 0
  }

  /** They arrive exactly if the reads before the first that fails or is empty can carry them. */
  lemma {:induction false} ArrivesIff(left: nat, events: seq<ReadEvent>)
    ensures Arrives(left, events) <==> exists k :: 0 <= k <= |events| && Flows(events[..k]) && Capacity(events[..k]) >= left
  {
    if left == 0 {
      assert Flows(events[..0]) && Capacity(events[..0]) >= left;
    } else if events == [] {
      assert events[..0] == [];
    } else {
      var rest := events[1..];
      if events[0].Chunk? && events[0].n > 0 {
        var bite := Bite(events[0].n, left);
        ArrivesIff(left - bite, rest);
        if k :| 0 <= k <= |rest| && Flows(rest[..k]) && Capacity(rest[..k]) >= left - bite {
          OneReadMore(events, k);
          assert Flows(events[..k + 1]) && Capacity(events[..k + 1]) >= left;
        }
        if k :| 0 <= k <= |events| && Flows(events[..k]) && Capacity(events[..k]) >= left {
          assert k > 0;
          OneReadMore(events, k - 1);
          assert Flows(rest[..k - 1]) && (Capacity(rest[..k - 1]) >= left - bite || bite == left);
          if bite == left { assert Flows(rest[..0]) && Capacity(rest[..0]) >= 0; }
        }
      } else {
        forall k | 0 < k <= |events| ensures !Flows(events[..k]) { FirstFails(events, k); }
      }
    }
  }

  lemma FirstFails(events: seq<ReadEvent>, k: nat)
    requires 0 < k <= |events| && !(events[0].Chunk? && events[0].n > 0)
    ensures !Flows(events[..k])
  {
    assert events[..k][0] in events[..k];
  }

  lemma OneReadMore(events: seq<ReadEvent>, k: nat)
    requires k < |events| && events[0].Chunk? && events[0].n > 0
    ensures Flows(events[..k + 1]) <==> Flows(events[1..][..k])
    ensures Capacity(events[..k + 1]) == Bite(events[0].n, READ_SIZE) + Capacity(events[1..][..k])
  {
    assert events[..k + 1][1..] == events[1..][..k] && events[..k + 1] == [events[0]] + events[1..][..k];
  }

  /** A helper is there to be asked and takes the request. */
  predicate Asked(had: bool, script: CallScript) {
    ((had && !script.dead) || script.spawnOk) && script.writeOk
  }

  /** It is asked and its answer arrives in time. */
  ghost predicate Served(had: bool, script: CallScript, path: string) {
    Asked(had, script) && Arrives(|script.answer(path)| + 1, script.events)
  }

  /** What a call gives. */
  ghost predicate Gives(had: bool, script: CallScript, path: string, decode: seq<Byte> -> Decoded, r: Listing) {
    match r
    case Rows(rows) => Served(had, script, path) && decode(script.answer(path)) == RowList(rows)
    case NoRows(Unreadable) => Served(had, script, path) && decode(script.answer(path)).NoRowList?
    case NoRows(Timeout) => Asked(had, script) && !Served(had, script, path)
    case NoRows(WorkerFailed) => !Asked(had, script) || (Served(had, script, path) && decode(script.answer(path)).NotJson?)
  }

  class ScandirWorker {
    var proc: Helper?
    var buf: seq<Byte>
    var starts: nat
    var restarts: nat
    ghost var dropped: nat  // helpers given up without counting as restarts

    constructor ()
      ensures Valid() && proc == null && starts == 0 && restarts == 0
    {
      proc, buf, starts, restarts, dropped := null, [], 0, 0, 0;
    }

    /** Between calls: no byte of an earlier answer is left anywhere the next call can read,
        and every helper ever started is live, was replaced, or was dropped. */
    ghost predicate Valid()
      reads this, proc
    {
      && buf == []
      && (proc != null ==> proc.pipe == [])
      && starts == restarts + dropped + if proc == null then 0 else 1
    }

    method Spawn(ok: bool) returns (spawned: bool)
      requires proc == null
      modifies this
      ensures spawned == ok && restarts == old(restarts) && dropped == old(dropped)
      ensures if ok then proc != null && fresh(proc) && proc.pipe == [] && buf == [] && starts == old(starts) + 1
              else proc == null && buf == old(buf) && starts == old(starts)
    {
      if !ok {
        return false;
      }
      var p := new Helper();
      starts := starts + 1;
      buf := [];
      proc := p;
      spawned := true;
    }

    /** Kills the helper and forgets it together with whatever it still sends. */
    method Discard()
      modifies this
      ensures proc == null && buf == [] && starts == old(starts) && restarts == old(restarts)
      ensures dropped == old(dropped)
    {
      proc := null;
      buf := [];
    }

    method Close()
      requires Valid()
      modifies this
      ensures Valid() && proc == null && starts == old(starts) && restarts == old(restarts)
    {
      dropped := dropped + if proc == null then 0 else 1;
      Discard();
    }

    /** One directory listing. Rows are always decoded from the helper's answer to this very
        path; a killed helper is gone when the call returns; and a call that finds a live
        helper and gets its answer spawns nothing. */
    method Listdir(path: string, script: CallScript, decode: seq<Byte> -> Decoded) returns (r: Listing)
      requires Valid() && forall p :: NEWLINE !in script.answer(p)
      modifies this, proc
      ensures Valid()
      ensures Gives(old(proc) != null, script, path, decode, r)
      // helpers: started when there is none, replaced when one does not take the request, does not
      // answer in time, or answers with something that is no JSON
      ensures starts == old(starts) + if (old(proc) == null || script.dead) && script.spawnOk then 1 else 0
      ensures restarts == old(restarts)
                + if (old(proc) != null && !script.dead) || script.spawnOk then (if r.Rows? || r == NoRows(Unreadable) then 0 else 1) else 0
      ensures proc != null <==> r.Rows? || r == NoRows(Unreadable)
      ensures r.Rows? ==> decode(script.answer(path)) == RowList(r.rows) && proc != null
      ensures r == NoRows(Unreadable) ==> decode(script.answer(path)).NoRowList? && proc != null
      ensures r == NoRows(Timeout) ==> proc == null && restarts == old(restarts) + 1
      ensures r == NoRows(WorkerFailed) ==> proc == null
      ensures old(proc) != null && !script.dead ==> starts == old(starts)
      ensures starts <= old(starts) + 1 && old(restarts) <= restarts <= old(restarts) + 1
      ensures proc != null ==> proc == old(proc) || fresh(proc)
    {
      if proc == null || script.dead {
        if proc != null {
          dropped := dropped + 1;
          Discard();
        }
        var spawned := Spawn(script.spawnOk);
        if !spawned {
          return NoRows(WorkerFailed);
        }
      }
      if !script.writeOk {
        Discard();
        restarts := restarts + 1;
        return NoRows(WorkerFailed);
      }
      proc.Request(path, script.answer);
      var line := ReadLine(script.events, script.answer(path));
      if line.None? {
        Discard();
        restarts := restarts + 1;
        return NoRows(Timeout);
      }
      var answer := decode(line.value);
      match answer
      case NotJson =>
        Discard();
        restarts := restarts + 1;
        return NoRows(WorkerFailed);
      case NoRowList =>
        return NoRows(Unreadable);
      case RowList(rows) =>
        return Rows(rows);
    }

    /** `_read_line`: collects chunks until a newline. With one answer outstanding, the line
        found is that answer, whole, and the stream is empty behind it. */
    method ReadLine(events: seq<ReadEvent>, ghost payload: seq<Byte>) returns (line: Option<seq<Byte>>)
      requires proc != null && buf == [] && proc.pipe == payload + [NEWLINE] && NEWLINE !in payload
      modifies this`buf, proc
      ensures line.Some? ==> line.value == payload && buf == [] && proc.pipe == []
      ensures line.Some? <==> Arrives(|payload| + 1, events)
    {
      var i := 0;
      assert events[0..] == events;
      while true
        invariant 0 <= i <= |events|
        invariant buf + proc.pipe == payload + [NEWLINE]
        invariant Arrives(|payload| + 1, events) <==> Arrives(|proc.pipe|, events[i..])
        decreases |events| - i
      {
        var nl := Find(buf, NEWLINE);
        WholeOrPart(buf, proc.pipe, payload);
        if nl.Some? {
          LineIsTheAnswer(buf, proc.pipe, payload, nl.value);
          line := Some(buf[..nl.value]);
          buf := buf[nl.value + 1..];
          return;
        }
        if i == |events| || !events[i].Chunk? {
          return None;
        }
        var chunk := proc.Read(events[i].n);
        if chunk == [] {
          return None;
        }
        assert (buf + chunk) + proc.pipe == buf + (chunk + proc.pipe);
        assert events[i..][1..] == events[i + 1..];
        buf := buf + chunk;
        i := i + 1;
      }
    }
  }

  /** The newline is read exactly when nothing is left to come. */
  lemma WholeOrPart(buf: seq<Byte>, pipe: seq<Byte>, payload: seq<Byte>)
    requires buf + pipe == payload + [NEWLINE] && NEWLINE !in payload
    ensures NEWLINE in buf <==> pipe == []
  {
    if pipe == [] {
      assert buf == buf + pipe;
      assert (payload + [NEWLINE])[|payload|] == NEWLINE;
    } else {
      assert |buf| <= |payload|;
      forall k | 0 <= k < |buf| ensures buf[k] != NEWLINE {
        assert (buf + pipe)[k] == buf[k] && (payload + [NEWLINE])[k] == payload[k] && payload[k] in payload;
      }
    }
  }

  /** The only newline in a stream of one answer is its last byte. */
  lemma LineIsTheAnswer(buf: seq<Byte>, pipe: seq<Byte>, payload: seq<Byte>, at: nat)
    requires buf + pipe == payload + [NEWLINE] && NEWLINE !in payload
    requires at < |buf| && buf[at] == NEWLINE
    ensures buf[..at] == payload && buf[at + 1..] == [] && pipe == []
  {
    assert (buf + pipe)[at] == NEWLINE && (payload + [NEWLINE])[at] == NEWLINE;
    assert forall k :: 0 <= k < |payload| ==> payload[k] != NEWLINE;
    assert |buf| + |pipe| == |payload| + 1;
    assert buf[..at] == (buf + pipe)[..at] == payload;
  }

  /** The helper lives, takes the request, and answers in time with rows or an error. */
  ghost predicate Healthy(script: CallScript, path: string, decode: seq<Byte> -> Decoded) {
    !script.dead && Served(false, script, path) && !decode(script.answer(path)).NotJson?
  }

  lemma ServedAnyway(had: bool, script: CallScript, path: string, decode: seq<Byte> -> Decoded, r: Listing)
    requires Gives(had, script, path, decode, r)
    ensures r.Rows? ==> decode(script.answer(path)) == RowList(r.rows)
    ensures Served(false, script, path) ==> Gives(false, script, path, decode, r)
  {}

  /** A session: calls one after the other on one worker. Whatever the adversary does in each
      of them, every list handed out is the answer to its own call's path. */
  method Session(paths: seq<string>, scripts: seq<CallScript>, decode: seq<Byte> -> Decoded)
    returns (results: seq<Listing>, starts: nat, restarts: nat, ghost had: seq<bool>)
    requires |scripts| == |paths|
    requires forall i :: 0 <= i < |scripts| ==> forall p :: NEWLINE !in scripts[i].answer(p)
    ensures |results| == |paths|
    ensures forall i :: 0 <= i < |results| && results[i].Rows? ==> decode(scripts[i].answer(paths[i])) == RowList(results[i].rows)
    // every call gives what it should, from the helper that the call before it left, if any
    ensures |had| == |paths| + 1 && !had[0]
    ensures Answered(paths, scripts, decode, results, had)
    // an answer that arrives is handed out
    ensures forall i :: 0 <= i < |results| && Served(false, scripts[i], paths[i]) ==> Gives(false, scripts[i], paths[i], decode, results[i])
    // a healthy walk needs one helper
    ensures AllHealthy(paths, scripts, decode, |paths|) ==> restarts == 0 && starts == if paths == [] then 0 else 1
    ensures restarts <= starts
  {
    var w := new ScandirWorker();
    results, had := [], [false];
    for i := 0 to |paths|
      invariant fresh(w) && w.Valid() && (w.proc != null ==> fresh(w.proc))
      invariant |results| == i && |had| == i + 1 && !had[0] && (had[i] <==> w.proc != null)
      invariant Answered(paths, scripts, decode, results, had)
      invariant AllHealthy(paths, scripts, decode, i) ==> w.restarts == 0 && w.starts == (if i == 0 then 0 else 1) && (w.proc != null <==> i > 0)
    {
      assert AllHealthy(paths, scripts, decode, i + 1) ==> AllHealthy(paths, scripts, decode, i) && Healthy(scripts[i], paths[i], decode);
      var r := w.Listdir(paths[i], scripts[i], decode);
      AnsweredMore(paths, scripts, decode, results, had, r, w.proc != null);
      results := results + [r];
      had := had + [w.proc != null];
    }
    w.Close();
    starts, restarts := w.starts, w.restarts;
    forall i | 0 <= i < |results|
      ensures results[i].Rows? ==> decode(scripts[i].answer(paths[i])) == RowList(results[i].rows)
      ensures Served(false, scripts[i], paths[i]) ==> Gives(false, scripts[i], paths[i], decode, results[i])
    {
      ServedAnyway(had[i], scripts[i], paths[i], decode, results[i]);
    }
  }

  ghost predicate AllHealthy(paths: seq<string>, scripts: seq<CallScript>, decode: seq<Byte> -> Decoded, n: nat)
    requires n <= |paths| == |scripts|
  {
    forall i :: 0 <= i < n ==> Healthy(scripts[i], paths[i], decode)
  }

  /** Each call gets what its events give with the helper it had, and leaves a helper behind after
      rows and after an answer that says the directory cannot be read. */
  ghost predicate Answered(paths: seq<string>, scripts: seq<CallScript>, decode: seq<Byte> -> Decoded, results: seq<Listing>, had: seq<bool>) {
    && |results| <= |paths| == |scripts| && |had| == |results| + 1
    && forall i :: 0 <= i < |results| ==>
         && Gives(had[i], scripts[i], paths[i], decode, results[i])
         && (had[i + 1] <==> results[i].Rows? || results[i] == NoRows(Unreadable))
  }

  lemma AnsweredMore(paths: seq<string>, scripts: seq<CallScript>, decode: seq<Byte> -> Decoded, results: seq<Listing>, had: seq<bool>,
                     r: Listing, has: bool)
    requires Answered(paths, scripts, decode, results, had) && |results| < |paths|
    requires Gives(had[|results|], scripts[|results|], paths[|results|], decode, r)
    requires has <==> r.Rows? || r == NoRows(Unreadable)
    ensures Answered(paths, scripts, decode, results + [r], had + [has])
  {}
}
