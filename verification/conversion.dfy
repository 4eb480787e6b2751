/** The per-file reassembly loop of the conversion driver: every segment the
    slicer produced becomes one output slice at the model's sample rate, and
    the slices are concatenated in segment order. */
module Conversion {
  import opened Wrappers
  import PySlice

  /** One audio sample. The driver works on numpy float arrays. */
  type Sample = real

  /** `np.zeros(n)`. */
  function Zeros(n: nat): (z: seq<Sample>)
    ensures |z| == n
    ensures forall i :: 0 <= i < n ==> z[i] == 0.0
  {
    seq(n, _ => 0.0)
  }

  /** One `(slice_tag, data)` pair from the slicer, over the input rate: a
      true tag marks a silent run. */
  datatype Segment = Silent(data: seq<Sample>) | Voiced(data: seq<Sample>)

  /** The arguments of `svc_model.infer` other than the audio itself. */
  datatype InferRequest = InferRequest(
    speaker: string,
    trans: int,
    clusterRatio: real,
    autoPitch: bool,
    noiseScale: real)

  /** `svc_model.infer`, reduced to the converted samples it returns. */
  type Engine = (InferRequest, seq<Sample>) -> seq<Sample>

  /** `infer_tool.pad_array(audio, length)`; its behaviour is not known here. */
  type PadArray = (seq<Sample>, nat) -> seq<Sample>

  /** Everything the loop uses that stays fixed for one input file. */
  datatype FileJob = FileJob(
    audioSr: nat,
    targetSample: nat,
    request: InferRequest,
    engine: Engine,
    padArray: PadArray)

  /** `len(data) / audio_sr` raises when the input rate is zero. */
  datatype ConvertError = ZeroInputRate

  /** Integer ceiling of `m / d`: the least `q` with `q * d >= m`. */
  function CeilDiv(m: nat, d: nat): (q: nat)
    requires d > 0
    ensures q * d >= m
    ensures q == 0 || (q - 1) * d < m
  {
    var q := (m + d - 1) / d;
    var r := (m + d - 1) % d;
    assert q * d + r == m + d - 1;
    assert q == 0 || (q - 1) * d == q * d - d;
    q
  }

  /** `int(np.ceil(n / audio_sr * target_sample))`, the number of output
      samples that `n` input samples last for. */
  function TargetLength(n: nat, audioSr: nat, targetSample: nat): (len: nat)
    requires audioSr > 0
    ensures len * audioSr >= n * targetSample
    ensures len == 0 || (len - 1) * audioSr < n * targetSample
  {
    CeilDiv(n * targetSample, audioSr)
  }

  lemma MulMonotone(a: nat, b: nat, d: nat)
    requires a <= b
    ensures a * d <= b * d
  {
    assert b * d == a * d + (b - a) * d;
  }

  /** The two bounds of `TargetLength` pin it down: it is the ceiling and
      nothing else. */
  lemma TargetLengthUnique(len: nat, n: nat, audioSr: nat, targetSample: nat)
    requires audioSr > 0
    requires len * audioSr >= n * targetSample
    requires len == 0 || (len - 1) * audioSr < n * targetSample
    ensures len == TargetLength(n, audioSr, targetSample)
  {
    var other := TargetLength(n, audioSr, targetSample);
    if len < other {
      MulMonotone(len, other - 1, audioSr);
    } else if other < len {
      MulMonotone(other, len - 1, audioSr);
    }
  }

  /** Without a rate change a segment keeps its sample count. */
  lemma TargetLengthSameRate(n: nat, rate: nat)
    requires rate > 0
    ensures TargetLength(n, rate, rate) == n
  {
    assert n == 0 || (n - 1) * rate == n * rate - rate;
    TargetLengthUnique(n, n, rate, rate);
  }

  /** A segment of whole seconds lasts exactly that many seconds at the
      output rate. */
  lemma TargetLengthWholeSeconds(k: nat, audioSr: nat, targetSample: nat)
    requires audioSr > 0
    ensures TargetLength(k * audioSr, audioSr, targetSample) == k * targetSample
  {
    var len := k * targetSample;
    assert len * audioSr == (k * audioSr) * targetSample;
    assert len == 0 || (len - 1) * audioSr == len * audioSr - audioSr;
    TargetLengthUnique(len, k * audioSr, audioSr, targetSample);
  }

  /** `int(rate * 0.5)`: the half second of padding, in samples at `rate`. */
  function PadLength(rate: nat): nat
  {
    rate / 2
  }

  /** The buffer handed to the engine for a voiced segment: half a second of
      zeros at the input rate on each side of the data. */
  function PadForEngine(data: seq<Sample>, audioSr: nat): (padded: seq<Sample>)
    ensures |padded| == |data| + 2 * PadLength(audioSr)
    ensures padded[..PadLength(audioSr)] == Zeros(PadLength(audioSr))
    ensures padded[PadLength(audioSr)..PadLength(audioSr) + |data|] == data
    ensures padded[PadLength(audioSr) + |data|..] == Zeros(PadLength(audioSr))
  {
    var z := Zeros(PadLength(audioSr));
    var padded := z + data + z;
    assert padded[..|z|] == z;
    assert padded[|z|..|z| + |data|] == data;
    assert padded[|z| + |data|..] == z;
    padded
  }

  /** `out[pad:-pad]` with `pad = int(target_sample * 0.5)`: drops half a
      second at the output rate from each end of the engine's output. A rate
      below 2 makes `pad` zero, and then nothing is kept. */
  function StripEnginePad(out: seq<Sample>, targetSample: nat): (r: seq<Sample>)
    ensures targetSample < 2 ==> r == []
    ensures 2 <= targetSample && 2 * PadLength(targetSample) <= |out| ==>
              r == out[PadLength(targetSample)..|out| - PadLength(targetSample)]
    ensures |r| == if 2 <= targetSample && 2 * PadLength(targetSample) <= |out|
                   then |out| - 2 * PadLength(targetSample) else 0
  {
    PySlice.StripBoth(out, PadLength(targetSample))
  }

  /** When the engine hands back its input unchanged at the same rate, the
      strip undoes the padding exactly. */
  lemma PaddingRoundTrip(data: seq<Sample>, rate: nat)
    requires rate >= 2
    ensures StripEnginePad(PadForEngine(data, rate), rate) == data
  {
    var z := Zeros(PadLength(rate));
    assert PadForEngine(data, rate) == z + data + z;
    PySlice.StripFramed(z, data, z);
  }

  /** The number of output samples requested for a segment. It is computed
      from the segment's input length alone. */
  function RequestedLength(seg: Segment, job: FileJob): nat
    requires job.audioSr > 0
  {
    TargetLength(|seg.data|, job.audioSr, job.targetSample)
  }

  /** `_audio`: zeros for a silent segment; the stripped engine output of the
      padded data for a voiced one. */
  function SegmentAudio(seg: Segment, job: FileJob): seq<Sample>
    requires job.audioSr > 0
  {
    match seg
    case Silent(_) => Zeros(RequestedLength(seg, job))
    case Voiced(d) => StripEnginePad(job.engine(job.request, PadForEngine(d, job.audioSr)), job.targetSample)
  }

  /** What one segment contributes to the output: `pad_array(_audio, length)`. */
  function Piece(seg: Segment, job: FileJob): seq<Sample>
    requires job.audioSr > 0
  {
    job.padArray(SegmentAudio(seg, job), RequestedLength(seg, job))
  }

  /** The contribution of every segment, in segment order. */
  function Pieces(segs: seq<Segment>, job: FileJob): (ps: seq<seq<Sample>>)
    requires job.audioSr > 0 || |segs| == 0
    ensures |ps| == |segs|
  {
    seq(|segs|, i requires 0 <= i < |segs| => Piece(segs[i], job))
  }

  /** Concatenation of a sequence of buffers, in order. */
  function Flatten<T>(ss: seq<seq<T>>): seq<T>
    decreases |ss|
  {
    if |ss| == 0 then [] else Flatten(ss[..|ss| - 1]) + ss[|ss| - 1]
  }

  /** The buffers handed to the engine, in call order: one per voiced
      segment and none for a silent one. */
  function EngineInputs(segs: seq<Segment>, audioSr: nat): seq<seq<Sample>>
    decreases |segs|
  {
    if |segs| == 0 then []
    else
      var last := segs[|segs| - 1];
      EngineInputs(segs[..|segs| - 1], audioSr)
        + (if last.Voiced? then [PadForEngine(last.data, audioSr)] else [])
  }

  /** The segment loop of one file. It returns the concatenated output and
      the buffers the engine was called with, or the division error the first
      segment raises when the input rate is zero. */
  method ConvertSegments(segs: seq<Segment>, job: FileJob)
    returns (result: Result<seq<Sample>, ConvertError>, sent: seq<seq<Sample>>)
    ensures result == if job.audioSr == 0 && |segs| > 0 then Failure(ZeroInputRate)
                      else Success(Flatten(Pieces(segs, job)))
    ensures sent == if job.audioSr == 0 then [] else EngineInputs(segs, job.audioSr)
  {
    if job.audioSr == 0 && |segs| > 0 {
      return Failure(ZeroInputRate), [];
    }
    var audio: seq<Sample> := [];
    sent := [];
    var i := 0;
    while i < |segs|
      invariant i <= |segs|
      invariant audio == Flatten(Pieces(segs[..i], job))
      invariant sent == EngineInputs(segs[..i], job.audioSr)
    {
      var seg := segs[i];
      var length := TargetLength(|seg.data|, job.audioSr, job.targetSample);
      var slice: seq<Sample>;
      if seg.Silent? {
        slice := Zeros(length);
      } else {
        var padded := PadForEngine(seg.data, job.audioSr);
        sent := sent + [padded];
        var out := job.engine(job.request, padded);
        slice := StripEnginePad(out, job.targetSample);
      }
      assert slice == SegmentAudio(seg, job);
      ghost var ps := Pieces(segs[..i + 1], job);
      assert ps[..i] == Pieces(segs[..i], job);
      assert ps[i] == job.padArray(slice, length);
      assert Flatten(ps) == Flatten(ps[..i]) + ps[i];
      assert segs[..i + 1][..i] == segs[..i];
      audio := audio + job.padArray(slice, length);
      i := i + 1;
    }
    assert segs[..i] == segs;
    result := Success(audio);
  }
}
