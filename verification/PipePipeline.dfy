/** The cold-storage writer and uploader: two goroutines joined by an io.Pipe, and the main goroutine
    that waits for both before it writes the _SUCCESS marker (`exportMetricsWindow` and its twins).
    Every interleaving of their steps is a run. */
module PipePipeline {
  import opened Text

  /** What the Parquet writer would send, piece by piece, if nothing went wrong. */
  type Script = seq<string>

  function Stream(chunks: Script): string {
    if chunks == [] then "" else Stream(chunks[..|chunks| - 1]) + chunks[|chunks| - 1]
  }

  /** The writer is between two writes, or blocked in a write, or done: the pipe is then closed with
      its error, or with EOF. */
  datatype Writer = Between(i: nat) | Offering(i: nat, rest: string) | WriterDone(failed: bool)

  /** The uploader reads, or is done: the pipe's read end is then closed. */
  datatype Uploader = Reading | UploaderDone(failed: bool)

  datatype Main = Waiting | Returned(marker: bool)

  datatype State = State(w: Writer, u: Uploader, got: string, main: Main)

  const INIT := State(Between(0), Reading, "", Waiting)

  datatype Step =
    | StartWrite      // pw.Write of the next piece
    | Take(n: nat)    // the uploader reads n bytes of the piece on offer
    | WriteRefused    // the read end is closed
    | SourceFails     // the scan or the encoder fails between two writes
    | CloseWriter     // all written
    | SeeEof          // UploadStream returns nil, after EOF only
    | SeeError        // the writer closed the pipe with an error
    | UploadFails     // UploadStream returns an error
    | Finish          // both channels are drained

  predicate Enabled(chunks: Script, s: State, step: Step) {
    match step
    case StartWrite => s.w.Between? && s.w.i < |chunks| && s.u.Reading?
    case Take(n) => s.w.Offering? && s.u.Reading? && n <= |s.w.rest| && (n == 0 ==> s.w.rest == "")
    case WriteRefused => (s.w.Offering? || (s.w.Between? && s.w.i < |chunks|)) && s.u.UploaderDone?
    case SourceFails => s.w.Between?
    case CloseWriter => s.w.Between? && s.w.i >= |chunks|
    case SeeEof => s.u.Reading? && s.w == WriterDone(false)
    case SeeError => s.u.Reading? && s.w == WriterDone(true)
    case UploadFails => s.u.Reading?
    case Finish => s.main.Waiting? && s.w.WriterDone? && s.u.UploaderDone?
  }

  function Next(chunks: Script, s: State, step: Step): State
    requires Enabled(chunks, s, step)
  {
    match step
    case StartWrite => s.(w := Offering(s.w.i, chunks[s.w.i]))
    case Take(n) =>
      s.(got := s.got + s.w.rest[..n],
         w := if n == |s.w.rest| then Between(s.w.i + 1) else Offering(s.w.i, s.w.rest[n..]))
    case WriteRefused => s.(w := WriterDone(true))
    case SourceFails => s.(w := WriterDone(true))
    case CloseWriter => s.(w := WriterDone(false))
    case SeeEof => s.(u := UploaderDone(false))
    case SeeError => s.(u := UploaderDone(true))
    case UploadFails => s.(u := UploaderDone(true))
    case Finish => s.(main := Returned(!s.w.failed && !s.u.failed))
  }

  /** Where an interleaving leads from INIT, if each of its steps is possible in turn. */
  function After(chunks: Script, steps: seq<Step>): Option<State> {
    if steps == [] then Some(INIT)
    else
      var last := steps[|steps| - 1];
      match After(chunks, steps[..|steps| - 1])
      case None => None
      case Some(mid) => if Enabled(chunks, mid, last) then Some(Next(chunks, mid, last)) else None
  }

  // ----- safety -----

  ghost predicate Inv(chunks: Script, s: State) {
    (match s.w
     case Between(i) => i <= |chunks| && s.got == Stream(chunks[..i])
     case Offering(i, rest) => i < |chunks| && s.got + rest == Stream(chunks[..i + 1])
     case WriterDone(failed) => failed || s.got == Stream(chunks)) &&
    (s.u == UploaderDone(false) ==> s.w == WriterDone(false)) &&
    (s.main.Returned? ==> s.w.WriterDone? && s.u.UploaderDone? && s.main.marker == (!s.w.failed && !s.u.failed))
  }

  lemma StreamUpTo(chunks: Script, i: nat)
    requires i < |chunks|
    ensures Stream(chunks[..i + 1]) == Stream(chunks[..i]) + chunks[i]
  {
    assert chunks[..i + 1][..i] == chunks[..i];
  }

  lemma StreamSnoc(chunks: Script, piece: string)
    ensures Stream(chunks + [piece]) == Stream(chunks) + piece
  {
    assert (chunks + [piece])[..|chunks|] == chunks;
  }

  lemma StepKeeps(chunks: Script, s: State, step: Step)
    requires Inv(chunks, s) && Enabled(chunks, s, step)
    ensures Inv(chunks, Next(chunks, s, step))
  {
    match step
    case StartWrite => StreamUpTo(chunks, s.w.i);
    case Take(n) =>
      assert s.w.rest == s.w.rest[..n] + s.w.rest[n..];
      assert s.got + s.w.rest[..n] + s.w.rest[n..] == s.got + s.w.rest;
    case CloseWriter => assert chunks[..|chunks|] == chunks;
    case _ =>
  }

  /** In every interleaving, the marker is attempted only when writer and uploader both ended without
      error, and then the uploaded bytes are the writer's complete stream. */
  lemma {:induction false} MarkerMeansComplete(chunks: Script, steps: seq<Step>, s: State)
    requires After(chunks, steps) == Some(s)
    ensures Inv(chunks, s)
    ensures s.main == Returned(true) ==>
      s.w == WriterDone(false) && s.u == UploaderDone(false) && s.got == Stream(chunks)
  {
    if steps != [] {
      var mid := After(chunks, steps[..|steps| - 1]).value;
      MarkerMeansComplete(chunks, steps[..|steps| - 1], mid);
      StepKeeps(chunks, mid, steps[|steps| - 1]);
    }
  }

  // ----- both goroutines finish -----

  function Remaining(chunks: Script, i: nat): nat
    requires i <= |chunks|
    decreases |chunks| - i
  {
    if i == |chunks| then 0 else |chunks[i]| + 2 + Remaining(chunks, i + 1)
  }

  /** An upper bound on the steps that are left. */
  function Fuel(chunks: Script, s: State): nat
    requires Inv(chunks, s)
  {
    (match s.w
     case Between(i) => Remaining(chunks, i) + 1
     case Offering(i, rest) => |rest| + 1 + Remaining(chunks, i + 1) + 1
     case WriterDone(_) => 0) +
    (if s.u.Reading? then 1 else 0) + (if s.main.Waiting? then 1 else 0)
  }

  lemma StepUsesFuel(chunks: Script, s: State, step: Step)
    requires Inv(chunks, s) && Enabled(chunks, s, step)
    ensures Inv(chunks, Next(chunks, s, step)) && Fuel(chunks, Next(chunks, s, step)) < Fuel(chunks, s)
  {
    StepKeeps(chunks, s, step);
  }

  /** No interleaving is longer than the work there is. */
  lemma {:induction false} RunsAreBounded(chunks: Script, steps: seq<Step>, s: State)
    requires After(chunks, steps) == Some(s)
    ensures Inv(chunks, s) && |steps| + Fuel(chunks, s) <= Remaining(chunks, 0) + 3
  {
    if steps != [] {
      var mid := After(chunks, steps[..|steps| - 1]).value;
      RunsAreBounded(chunks, steps[..|steps| - 1], mid);
      StepUsesFuel(chunks, mid, steps[|steps| - 1]);
    }
  }

  /** Nobody waits forever: until the main goroutine has returned some step is possible that is not a
      failure of the source or of the store. */
  lemma NeverStuck(chunks: Script, s: State)
    requires Inv(chunks, s) && s.main.Waiting?
    ensures exists step :: Enabled(chunks, s, step) && !step.SourceFails? && !step.UploadFails?
  {
    if s.w.Offering? && s.u.Reading? {
      assert Enabled(chunks, s, Take(|s.w.rest|));
    } else if s.w.Between? && s.w.i >= |chunks| {
      assert Enabled(chunks, s, CloseWriter);
    } else if s.w.Between? && s.u.Reading? {
      assert Enabled(chunks, s, StartWrite);
    } else if !s.w.WriterDone? {
      assert Enabled(chunks, s, WriteRefused);
    } else if s.u.Reading? {
      assert Enabled(chunks, s, if s.w.failed then SeeError else SeeEof);
    } else {
      assert Enabled(chunks, s, Finish);
    }
  }

  /** An interleaving that cannot be continued has ended with both goroutines done and the main one
      returned. */
  lemma MaximalRunsFinish(chunks: Script, steps: seq<Step>, s: State)
    requires After(chunks, steps) == Some(s) && forall step :: !Enabled(chunks, s, step)
    ensures s.main.Returned? && s.w.WriterDone? && s.u.UploaderDone?
  {
    MarkerMeansComplete(chunks, steps, s);
    if s.main.Waiting? { NeverStuck(chunks, s); }
  }

  // ----- and can succeed -----

  lemma OneMore(chunks: Script, steps: seq<Step>, s: State, step: Step)
    requires After(chunks, steps) == Some(s) && Enabled(chunks, s, step)
    ensures After(chunks, steps + [step]) == Some(Next(chunks, s, step))
  {
    assert (steps + [step])[..|steps|] == steps;
  }

  lemma {:induction false} Delivered(chunks: Script, i: nat) returns (steps: seq<Step>)
    requires i <= |chunks|
    ensures After(chunks, steps) == Some(State(Between(i), Reading, Stream(chunks[..i]), Waiting))
  {
    if i == 0 {
      steps := [];
      assert chunks[..0] == [];
    } else {
      steps := Delivered(chunks, i - 1);
      var piece := chunks[i - 1];
      var s := State(Between(i - 1), Reading, Stream(chunks[..i - 1]), Waiting);
      OneMore(chunks, steps, s, StartWrite);
      steps, s := steps + [StartWrite], Next(chunks, s, StartWrite);
      OneMore(chunks, steps, s, Take(|piece|));
      steps, s := steps + [Take(|piece|)], Next(chunks, s, Take(|piece|));
      StreamUpTo(chunks, i - 1);
      assert piece[..|piece|] == piece;
    }
  }

  /** For every stream there is an interleaving that uploads all of it and attempts the marker. */
  lemma CanSucceed(chunks: Script) returns (steps: seq<Step>, s: State)
    ensures After(chunks, steps) == Some(s) && s.main == Returned(true) && s.got == Stream(chunks)
  {
    steps := Delivered(chunks, |chunks|);
    assert chunks[..|chunks|] == chunks;
    s := State(Between(|chunks|), Reading, Stream(chunks), Waiting);
    OneMore(chunks, steps, s, CloseWriter);
    steps, s := steps + [CloseWriter], Next(chunks, s, CloseWriter);
    OneMore(chunks, steps, s, SeeEof);
    steps, s := steps + [SeeEof], Next(chunks, s, SeeEof);
    OneMore(chunks, steps, s, Finish);
    steps, s := steps + [Finish], Next(chunks, s, Finish);
  }

  // ----- and can fail at any point -----

  /** The upload may fail after any number of pieces: then the writer is refused and no marker is
      attempted. */
  lemma CanBreak(chunks: Script, i: nat) returns (steps: seq<Step>, s: State)
    requires i < |chunks|
    ensures After(chunks, steps) == Some(s) && s.main == Returned(false) && s.u == UploaderDone(true) && s.w == WriterDone(true)
    ensures s.got == Stream(chunks[..i])
  {
    steps := Delivered(chunks, i);
    s := State(Between(i), Reading, Stream(chunks[..i]), Waiting);
    OneMore(chunks, steps, s, UploadFails);
    steps, s := steps + [UploadFails], Next(chunks, s, UploadFails);
    OneMore(chunks, steps, s, WriteRefused);
    steps, s := steps + [WriteRefused], Next(chunks, s, WriteRefused);
    OneMore(chunks, steps, s, Finish);
    steps, s := steps + [Finish], Next(chunks, s, Finish);
  }

  /** The source may fail after any number of pieces: then the upload sees the error and no marker is
      attempted. */
  lemma CanDryUp(chunks: Script, i: nat) returns (steps: seq<Step>, s: State)
    requires i <= |chunks|
    ensures After(chunks, steps) == Some(s) && s.main == Returned(false) && s.u == UploaderDone(true) && s.w == WriterDone(true)
    ensures s.got == Stream(chunks[..i])
  {
    steps := Delivered(chunks, i);
    s := State(Between(i), Reading, Stream(chunks[..i]), Waiting);
    OneMore(chunks, steps, s, SourceFails);
    steps, s := steps + [SourceFails], Next(chunks, s, SourceFails);
    OneMore(chunks, steps, s, SeeError);
    steps, s := steps + [SeeError], Next(chunks, s, SeeError);
    OneMore(chunks, steps, s, Finish);
    steps, s := steps + [Finish], Next(chunks, s, Finish);
  }
}
