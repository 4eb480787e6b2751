# Batch voice conversion driver: segment reassembly model

This project models the logic of `ui.py`, the batch driver of a so-vits-svc
voice-conversion front end. For each input file, `InferenceGui.convert` takes
the `(slice_tag, data)` segments of the slicer. A silent segment (tag true)
becomes zeros. A voiced segment is padded with half a second of zeros on each
side, passed to `svc_model.infer`, and stripped of half a second at the
model's rate `target_sample` at each end. Every result goes through
`infer_tool.pad_array(_audio, length)`, where `length` is the segment's
duration at the output rate, and the results are concatenated in segment
order. Around that loop the model also covers:

- the input-path filter of `_get_input_filepaths`;
- the speaker list that `get_speakers` builds from each folder's `spk` map;
- the engine request built for the chosen speaker;
- the output path `./_svc_out/{stem}_{trans}_key_{folder}.wav`.

Modules:

- `PySlice`: Python slicing `a[start:stop]`, and `a[p:-p]` in particular.
  Because `-0 == 0`, `a[0:-0]` is empty.
- `PyStr`: `startswith`, `endswith`, `split('/')` with its inverse `join`,
  ASCII `lower`, and string `<=`.
- `PyInt`: `str(int)` together with its parser.
- `Conversion`: the segment loop (`ConvertSegments`). Its reference
  definition is `Flatten(Pieces(...))`. The engine and `pad_array` are
  function parameters (`Engine`, `PadArray`).
- `ConversionProps`: length, order, silence, drift and round-trip properties
  of the loop. `pad_array`'s code is not part of this model, so these
  properties never assume what it does. A lemma that needs something of it
  names that as a hypothesis:
  - `FixesLength`: it returns exactly the requested length;
  - `KeepsExactLength`: it leaves a buffer of the right length alone.

  `IsIdentity` names the echoing engine in the same way.
- `InputFiles`: the input-path filter.
- `Sorting`: a stable insertion sort by a key under any total preorder,
  standing for Python's `sorted(..., key=...)`.
- `Speakers`: the speaker list, sorted by lower-cased name.
- `Driver`: the engine request and the output path.

Integer forms of the source's float arithmetic:

- `int(np.ceil(n / audio_sr * target_sample))` is the integer ceiling
  `(n * target_sample + audio_sr - 1) / audio_sr`.
- `int(rate * 0.5)` is `rate / 2`.
- `len(data) / audio_sr` raises when `audio_sr` is zero. The model returns
  `Failure(ZeroInputRate)` in that case, provided there is at least one
  segment.

Behaviour of the code worth knowing:

- The strip length is `int(target_sample * 0.5)`, which rounds down.
- Each segment's output length is whatever `pad_array(_audio, length)`
  returns. Its body is not part of this model, so no truncation is assumed.
- The output name uses the folder part of the speaker name
  (`split('/')[-1]`).
- `existing_files` is only read, never added to.
- `convert` has no exception handling. A failure in one file ends the whole
  batch.

## Model

| member | source | states |
|---|---|---|
| PySlice.StripBoth | ui.py:186-187 | `a[p:-p]` is empty when p is 0. Otherwise it is `a[p..len-p]`, or empty when the buffer is shorter than 2p. Its length is max(0, len - 2p). |
| PySlice.StripFramed | ui.py:172-173 | For p > 0, stripping p from each end of a buffer framed by two p-long blocks gives back the framed part. |
| Conversion.Zeros | ui.py:168 | `np.zeros(n)` has n samples, all 0. |
| Conversion.TargetLength | ui.py:163-164 | The per-segment length L satisfies L*sr >= n*t and (L-1)*sr < n*t: the ceiling of n*t/sr. |
| Conversion.TargetLengthUnique | ui.py:163-164 | Those two bounds determine the segment length uniquely. |
| Conversion.TargetLengthSameRate | ui.py:163-164 | With equal input and output rates, a segment keeps its sample count. |
| Conversion.TargetLengthWholeSeconds | ui.py:163-164 | k seconds of input ask for exactly k*target_sample output samples. |
| Conversion.PadForEngine | ui.py:171-173 | The buffer sent to the engine has length len(data) + 2*(audio_sr/2). It is the data framed by equally long zero blocks. |
| Conversion.StripEnginePad | ui.py:186-187 | The engine output loses target_sample/2 samples at each end. A rate below 2 keeps nothing, and an output shorter than twice the pad keeps nothing. |
| Conversion.PaddingRoundTrip | ui.py:171-187 | An engine that echoes its input at the same rate of at least 2 gets the segment data back after the strip. |
| Conversion.ConvertSegments | ui.py:158-188 | The loop returns the in-order concatenation of `pad_array(slice_i, L_i)`, where L_i comes from the input length only. It also returns the engine's inputs: one padded buffer per voiced segment, in order. With a zero input rate and any segment it fails. |
| ConversionProps.FlattenAt | ui.py:188 | The concatenation keeps segment order: piece i starts right after all earlier pieces. |
| ConversionProps.SilentPieceIsZeros | ui.py:166-168 | A silent segment contributes exactly L zeros when `pad_array` leaves correctly sized buffers alone. |
| ConversionProps.SilentSegmentsIgnoreEngine | ui.py:166-184 | The engine is called once per voiced segment and never for a silent one. Each silent segment's contribution is the same for every engine and request, also among voiced segments. |
| ConversionProps.OutputLength | ui.py:163-188 | With a length-fixing `pad_array`, the output length is the sum of the per-segment lengths, whatever the engine returned. |
| ConversionProps.SumRequestedBounds | ui.py:163-164 | The summed segment lengths cover the input duration at the output rate. Per segment they exceed it by less than one output sample, so there is no drift. |
| ConversionProps.IdentityRoundTrip | ui.py:158-188 | Take an echoing engine, equal rates of at least 2, and a `pad_array` that leaves correctly sized buffers alone. The output is then the input waveform with its silent runs zeroed. |
| ConversionProps.ScenarioRequestedLengths | ui.py:163-164 | Three one-second segments at 44100 Hz output ask for 132300 samples in all. |
| ConversionProps.ThreeSecondScenario | ui.py:158-188 | With a `pad_array` that returns the requested length and leaves correctly sized buffers alone: for segments voiced, silent, voiced of one second each, the output has 132300 samples, and samples 44100 to 88199 are zero. |
| InputFiles.FilterMembership | ui.py:127-128 | A path is returned exactly when it was globbed, ends in .wav, .flac, .mp3, .ogg or .opus, and is not in `existing_files`. |
| InputFiles.FilterAppend | ui.py:127-128 | The filter distributes over concatenation, so glob order is kept and paths are only removed. |
| InputFiles.FilterIdempotent | ui.py:127-128 | Filtering the result again changes nothing. |
| Speakers.FolderSpeakersMembership | ui.py:57-61 | A folder's entries are exactly the `key/folder` entries, carrying the id, of its `spk` keys that do not start with `.`. There are as many entries as such keys, so each key gives one entry. |
| Speakers.CollectMembership | ui.py:26-61 | The collected list holds exactly the entries the folders contribute. |
| Speakers.LexLeqTotalPreorder | ui.py:63 | Python's string order on the lower-cased names is total and transitive, so it can drive a sort. |
| Sorting.InsertSorted | ui.py:63 | Inserting into a sorted list at the first position whose key is greater keeps it sorted. |
| Sorting.InsertStable | ui.py:63 | Such an insertion puts the new entry after every entry with an equal key. |
| Sorting.SortSorted | ui.py:63 | The sorted list is ordered by its key under any total preorder. |
| Sorting.SortPermutes | ui.py:63 | Sorting is a permutation: the same entries, each as often. |
| Sorting.SortStable | ui.py:63 | Entries with equal keys keep their original order, as with `sorted`. |
| Speakers.GetSpeakersSpec | ui.py:57-63 | The speaker list is sorted, stable and a permutation of the collected entries. It holds an entry exactly when some folder has a non-hidden key producing it. |
| PyStr.LastPartAfterSep | ui.py:189 | `(a + '/' + b).split('/')[-1] == b` whenever b has no `/`. |
| PyInt.NatToString | ui.py:191 | `str(n)` is non-empty and all digits, with no leading zero. |
| PyInt.IntToString | ui.py:191 | `str(n)` starts with `-` exactly when n is negative. |
| PyInt.ParseIntToString | ui.py:191 | `int(str(n)) == n`. |
| PyInt.IntToStringInjective | ui.py:191 | Distinct integers print differently. |
| Driver.OutputPathForSpeaker | ui.py:189-192 | For a listed speaker the path is `./_svc_out/` + stem + `_` + str(trans) + `_key_` + folder + `.wav`. |
| Driver.OutputPathSeparatesTrans | ui.py:189-192 | Two transpositions of one file for one speaker never get the same output path. |
| Driver.InferKeyAsWrittenPlainKey | ui.py:181 | For a key and folder without `/`, `name.split('/')[0]` gives back the key. |
| Driver.InferKeyAsWrittenLosesSlashKey | ui.py:58 | The key `a/b` of folder `m` is named `a/b/m`, and the engine is then asked for `a`. |
| Driver.SpeakerKeyOfDisplayName | ui.py:58 | Taking the display name up to its last `/` recovers every key. |
| Driver.RequestForListedSpeaker | ui.py:177-184 | When the speaker's own `spk` key contains no `/`, the engine is asked for one of the speaker's folder's non-hidden `spk` keys (`name.split('/')[0]`). A speaker without a clustering model gets cluster ratio 0. |
| Driver.RequestForListedSpeakerCorrected | ui.py:58 | With the corrected key, every listed speaker is converted under one of its folder's non-hidden `spk` keys, with no condition on the keys. |

## Findings

| source | as written | input that shows it | evidently intended | confidence | as-written member | corrected member |
|---|---|---|---|---|---|---|
| ui.py:181 | The engine gets `speaker["name"].split('/')[0]` as its speaker key. | The `spk` key `a/b` in folder `m` gives the name `a/b/m`, and the engine gets `a`. | The key that was joined to the folder at ui.py:58, which is everything before the last `/`. | low, not executed | Driver.InferKeyAsWrittenLosesSlashKey | Driver.SpeakerKeyOfDisplayName |

`Driver.BuildRequest` builds the request as the code does, with `split('/')[0]`. `Driver.BuildRequestCorrected` uses `SpeakerKey`, and `Driver.RequestForListedSpeakerCorrected` proves that it names a real `spk` key for every key.

## Left out

- Conversion.TargetLength: exact integer ceiling. The source computes `len/sr*t` in floating point, which can round across an integer.
- Conversion.TargetLengthSameRate: holds for the exact ceiling only. In doubles, 13/44100*44100 is 13.000000000000002, so at 44100 Hz a 13-sample segment asks for 14 samples.
- ConversionProps.SumRequestedBounds: the upper bound holds for the exact ceiling only. The float code can ask for one more sample per segment (13 samples at 44100 Hz → 14), so L*sr can reach n*t + sr.
- ConversionProps.IdentityRoundTrip: holds for the exact ceiling only. When the float code asks for n+1 samples (13 at 44100 Hz → 14), the piece is `pad_array(data, n+1)`, which `KeepsExactLength` does not cover.
- Conversion.PadLength: `int(rate * 0.5)` is `rate / 2` for every rate a float holds exactly, which covers all real sample rates.
- `infer_tool.pad_array` is an opaque parameter because its code is not part of this model. Length and zero properties take an explicit hypothesis about it.
- `svc_model.infer` is an opaque parameter. The sample rate it returns is ignored, as the source ignores it. Its exceptions are not modelled: in the source they end the whole `convert` call.
- `slicer.cut`, `slicer.chunks2audio`, `infer_tool.format_wav`, `soundfile.write` and `BytesIO` are file and audio I/O. The segments arrive as input.
- Conversion.Engine: stands for `infer` applied to the WAV file that ui.py:174-176 writes at `audio_sr` with soundfile's default 16-bit PCM subtype. The 16-bit quantisation is not modelled. `sent` in `ConvertSegments` is the padded buffer before encoding, and `IsIdentity` describes an engine that also undoes that encoding.
- Segment contiguity and maximality belong to the slicer, whose code is not part of this model.
- `get_speakers` folder walking, globbing and JSON reading (ui.py:24-56) are filesystem I/O. Each folder arrives with its paths and parsed `spk` map. The malformed-JSON path is left out too.
- `spk` ids are integers in the model. JSON allows any value.
- PyStr.Lower: ASCII letters only. Python's `str.lower` also maps non-ASCII letters.
- PyInt.ParseInt: only the canonical forms `str` produces. Python's `int` also accepts whitespace, `+` and underscores.
- The tkinter window, its widgets and the parsing of its text entries (ui.py:73-135, 138-140) are user interface.
- The cluster-ratio and noise-scale fields are parsed with `float(...)` inside the segment loop, once per voiced segment. The noise scale is parsed for every voiced segment (ui.py:184). The cluster ratio is parsed only when the speaker has a clustering model, `speaker["cluster_path"] != ""` (ui.py:178-179). Malformed text in a field that is parsed raises `ValueError` at a file's first voiced segment and ends the batch. A file with only silent segments parses neither field. `BuildRequest` takes the already-parsed values, so this error path is not modelled.
- `Path(name).stem` and `with_suffix` (ui.py:153-154) are path handling. The stem arrives as input.
- `clean()` (ui.py:196-201) deletes files. It selects them with the same condition that `InputFiles.Selected` models.
- The float cluster ratio and noise scale are passed through untouched.
