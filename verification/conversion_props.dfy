/** Properties of the segment reassembly loop modelled in `Conversion`. The
    engine and `pad_array` stay arbitrary; where a property needs something of
    `pad_array`, the lemma names it as a hypothesis. */
module ConversionProps {
  import opened Conversion

  /** `pad_array(a, n)` has `n` samples. */
  ghost predicate PadsTo(padArray: PadArray, a: seq<Sample>, n: nat)
  {
    |padArray(a, n)| == n
  }

  /** `pad_array` returns exactly the requested number of samples. */
  ghost predicate FixesLength(padArray: PadArray)
  {
    forall a, n :: PadsTo(padArray, a, n)
  }

  /** `pad_array(a, len(a))` is `a`. */
  ghost predicate Keeps(padArray: PadArray, a: seq<Sample>)
  {
    padArray(a, |a|) == a
  }

  /** `pad_array` leaves a buffer that already has the requested length alone. */
  ghost predicate KeepsExactLength(padArray: PadArray)
  {
    forall a :: Keeps(padArray, a)
  }

  /** The engine hands back `x` for the request `req`. */
  ghost predicate Echoes(engine: Engine, req: InferRequest, x: seq<Sample>)
  {
    engine(req, x) == x
  }

  /** An engine that returns its input buffer unchanged. */
  ghost predicate IsIdentity(engine: Engine)
  {
    forall req, x :: Echoes(engine, req, x)
  }

  predicate AllSilent(segs: seq<Segment>)
  {
    forall i :: 0 <= i < |segs| ==> segs[i].Silent?
  }

  /** The sum of the per-segment requested lengths. */
  function SumRequested(segs: seq<Segment>, job: FileJob): nat
    requires job.audioSr > 0
    decreases |segs|
  {
    if |segs| == 0 then 0
    else SumRequested(segs[..|segs| - 1], job) + RequestedLength(segs[|segs| - 1], job)
  }

  /** The number of input samples the segments cover. */
  function TotalSamples(segs: seq<Segment>): nat
    decreases |segs|
  {
    if |segs| == 0 then 0
    else TotalSamples(segs[..|segs| - 1]) + |segs[|segs| - 1].data|
  }

  /** The input waveform with every silent run replaced by zeros. */
  function MutedWaveform(segs: seq<Segment>): seq<Sample>
    decreases |segs|
  {
    if |segs| == 0 then []
    else
      var last := segs[|segs| - 1];
      MutedWaveform(segs[..|segs| - 1]) + (if last.Silent? then Zeros(|last.data|) else last.data)
  }

  lemma {:induction false} FlattenAppend<T>(a: seq<seq<T>>, b: seq<seq<T>>)
    ensures Flatten(a + b) == Flatten(a) + Flatten(b)
    decreases |b|
  {
    if |b| == 0 {
      assert a + b == a;
    } else {
      var n := |b| - 1;
      assert (a + b)[..|a + b| - 1] == a + b[..n];
      assert (a + b)[|a + b| - 1] == b[n];
      FlattenAppend(a, b[..n]);
    }
  }

  /** Concatenation keeps segment order: piece `i` occupies the positions
      right after all earlier pieces. */
  lemma FlattenAt<T>(ps: seq<seq<T>>, i: nat, k: nat)
    requires i < |ps| && k < |ps[i]|
    ensures |Flatten(ps[..i])| + k < |Flatten(ps)|
    ensures Flatten(ps)[|Flatten(ps[..i])| + k] == ps[i][k]
  {
    assert ps == ps[..i + 1] + ps[i + 1..];
    FlattenAppend(ps[..i + 1], ps[i + 1..]);
    assert ps[..i + 1][..i] == ps[..i];
  }

  /** A silent segment becomes exactly its requested number of zeros when
      `pad_array` leaves correctly sized buffers alone. */
  lemma SilentPieceIsZeros(d: seq<Sample>, job: FileJob)
    requires job.audioSr > 0 && KeepsExactLength(job.padArray)
    ensures Piece(Silent(d), job) == Zeros(TargetLength(|d|, job.audioSr, job.targetSample))
  {
    var z := Zeros(TargetLength(|d|, job.audioSr, job.targetSample));
    assert Keeps(job.padArray, z);
  }

  /** The number of voiced segments. */
  function VoicedCount(segs: seq<Segment>): nat
    decreases |segs|
  {
    if |segs| == 0 then 0
    else VoicedCount(segs[..|segs| - 1]) + (if segs[|segs| - 1].Voiced? then 1 else 0)
  }

  /** The engine is called once per voiced segment, so never for a silent
      one; and what a silent segment contributes is the same whatever engine
      and request are used, wherever it stands among voiced ones. */
  lemma {:induction false} SilentSegmentsIgnoreEngine(segs: seq<Segment>, job: FileJob, engine': Engine, request': InferRequest)
    requires job.audioSr > 0
    ensures |EngineInputs(segs, job.audioSr)| == VoicedCount(segs)
    ensures AllSilent(segs) ==> EngineInputs(segs, job.audioSr) == []
    ensures forall i | 0 <= i < |segs| && segs[i].Silent? ::
              Pieces(segs, job)[i] == Pieces(segs, job.(engine := engine', request := request'))[i]
    decreases |segs|
  {
    if |segs| > 0 {
      var n := |segs| - 1;
      SilentSegmentsIgnoreEngine(segs[..n], job, engine', request');
      if AllSilent(segs) {
        assert AllSilent(segs[..n]);
        assert segs[n].Silent?;
      }
    }
  }

  /** With a length-fixing `pad_array`, the output holds exactly the sum of
      the requested lengths, whatever the engine returned. */
  lemma {:induction false} OutputLength(segs: seq<Segment>, job: FileJob)
    requires job.audioSr > 0 && FixesLength(job.padArray)
    ensures |Flatten(Pieces(segs, job))| == SumRequested(segs, job)
    decreases |segs|
  {
    if |segs| > 0 {
      var n := |segs| - 1;
      var ps := Pieces(segs, job);
      assert ps[..n] == Pieces(segs[..n], job);
      assert PadsTo(job.padArray, SegmentAudio(segs[n], job), RequestedLength(segs[n], job));
      OutputLength(segs[..n], job);
    }
  }

  /** One more segment keeps both drift bounds. */
  lemma DriftStep(a: nat, m: nat, k: nat, len: nat, d: nat, s: nat, t: nat)
    requires s > 0
    requires a * s >= m * t && a * s <= m * t + k * (s - 1)
    requires len * s >= d * t && len * s <= d * t + (s - 1)
    ensures (a + len) * s >= (m + d) * t
    ensures (a + len) * s <= (m + d) * t + (k + 1) * (s - 1)
  {
    assert (a + len) * s == a * s + len * s;
    assert (m + d) * t == m * t + d * t;
    assert (k + 1) * (s - 1) == k * (s - 1) + (s - 1);
  }

  /** The ceiling exceeds the exact quotient by less than one. */
  lemma TargetLengthUpper(n: nat, audioSr: nat, targetSample: nat)
    requires audioSr > 0
    ensures TargetLength(n, audioSr, targetSample) * audioSr <= n * targetSample + (audioSr - 1)
  {
    var len := TargetLength(n, audioSr, targetSample);
    assert len == 0 || (len - 1) * audioSr == len * audioSr - audioSr;
  }

  /** The requested lengths never drift: their sum covers the whole input
      duration at the output rate and exceeds it by less than one output
      sample per segment. */
  lemma {:induction false} SumRequestedBounds(segs: seq<Segment>, job: FileJob)
    requires job.audioSr > 0
    ensures SumRequested(segs, job) * job.audioSr >= TotalSamples(segs) * job.targetSample
    ensures SumRequested(segs, job) * job.audioSr
            <= TotalSamples(segs) * job.targetSample + |segs| * (job.audioSr - 1)
    decreases |segs|
  {
    if |segs| > 0 {
      var n := |segs| - 1;
      SumRequestedBounds(segs[..n], job);
      TargetLengthUpper(|segs[n].data|, job.audioSr, job.targetSample);
      DriftStep(SumRequested(segs[..n], job), TotalSamples(segs[..n]), n,
                RequestedLength(segs[n], job), |segs[n].data|, job.audioSr, job.targetSample);
    }
  }

  /** With an engine that echoes its input, equal input and output rates of
      at least 2 and a `pad_array` that keeps correctly sized buffers, the
      output is the input waveform with its silent runs zeroed. */
  lemma {:induction false} IdentityRoundTrip(segs: seq<Segment>, job: FileJob)
    requires job.audioSr >= 2 && job.targetSample == job.audioSr
    requires IsIdentity(job.engine) && KeepsExactLength(job.padArray)
    ensures Flatten(Pieces(segs, job)) == MutedWaveform(segs)
    decreases |segs|
  {
    if |segs| > 0 {
      var n := |segs| - 1;
      var ps := Pieces(segs, job);
      assert ps[..n] == Pieces(segs[..n], job);
      IdentityRoundTrip(segs[..n], job);
      var seg := segs[n];
      TargetLengthSameRate(|seg.data|, job.audioSr);
      if seg.Voiced? {
        assert Echoes(job.engine, job.request, PadForEngine(seg.data, job.audioSr));
        PaddingRoundTrip(seg.data, job.audioSr);
        assert Keeps(job.padArray, seg.data);
      } else {
        SilentPieceIsZeros(seg.data, job);
      }
    }
  }

  /** Three one-second segments, voiced, silent, voiced, at any input rate
      and a 44100 Hz output rate: every segment asks for 44100 samples. */
  lemma ScenarioRequestedLengths(a: seq<Sample>, b: seq<Sample>, c: seq<Sample>, job: FileJob)
    requires job.audioSr > 0 && job.targetSample == 44100
    requires |a| == job.audioSr && |b| == job.audioSr && |c| == job.audioSr
    ensures SumRequested([Voiced(a), Silent(b), Voiced(c)], job) == 132300
  {
    var segs := [Voiced(a), Silent(b), Voiced(c)];
    TargetLengthWholeSeconds(1, job.audioSr, 44100);
    assert segs[..2] == [Voiced(a), Silent(b)];
    assert segs[..2][..1] == [Voiced(a)];
    assert segs[..2][..1][..0] == [];
    assert SumRequested(segs[..2][..1], job) == 44100;
    assert SumRequested(segs[..2], job) == 88200;
  }

  /** The same three segments: the output holds 132300 samples and the
      middle second is silent. */
  lemma ThreeSecondScenario(a: seq<Sample>, b: seq<Sample>, c: seq<Sample>, job: FileJob)
    requires job.audioSr > 0 && job.targetSample == 44100
    requires |a| == job.audioSr && |b| == job.audioSr && |c| == job.audioSr
    requires FixesLength(job.padArray) && KeepsExactLength(job.padArray)
    ensures |Flatten(Pieces([Voiced(a), Silent(b), Voiced(c)], job))| == 132300
    ensures forall i :: 44100 <= i < 88200 ==>
              Flatten(Pieces([Voiced(a), Silent(b), Voiced(c)], job))[i] == 0.0
  {
    var segs := [Voiced(a), Silent(b), Voiced(c)];
    var ps := Pieces(segs, job);
    ScenarioRequestedLengths(a, b, c, job);
    OutputLength(segs, job);
    TargetLengthWholeSeconds(1, job.audioSr, 44100);
    SilentPieceIsZeros(b, job);
    assert ps[1] == Zeros(44100);
    assert PadsTo(job.padArray, SegmentAudio(segs[0], job), RequestedLength(segs[0], job));
    assert |ps[0]| == 44100;
    assert |Flatten(ps[..1])| == 44100 by {
      assert ps[..1][..0] == [];
    }
    forall i | 44100 <= i < 88200
      ensures Flatten(ps)[i] == 0.0
    {
      FlattenAt(ps, 1, i - 44100);
    }
  }
}
