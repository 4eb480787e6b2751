/** The per-file glue around the segment loop: the engine request built from
    the chosen speaker and the name the converted file is written under. */
module Driver {
  import PyStr
  import PyInt
  import Speakers
  import Conversion

  /** The output directory, as the driver spells it. */
  const OutDir: string := "./_svc_out/"

  /** The module-level `wav_format`. */
  const WavFormat: string := "wav"

  /** `os.path.join(base, rest)` on POSIX: an absolute `rest` replaces
      `base`; otherwise a `/` is inserted unless `base` is empty or already
      ends in one. */
  function JoinPath(base: string, rest: string): string
  {
    if |rest| > 0 && rest[0] == '/' then rest
    else if |base| == 0 || base[|base| - 1] == '/' then base + rest
    else base + "/" + rest
  }

  /** `speaker["name"].split('/')[-1]`, the folder part of a display name. */
  function ModelOutputName(name: string): string
  {
    PyStr.LastPart(name, '/')
  }

  /** The file name part of the output path. */
  function OutputFileName(stem: string, trans: int, speakerName: string): string
  {
    stem + "_" + PyInt.IntToString(trans) + "_key_" + ModelOutputName(speakerName) + "." + WavFormat
  }

  /** `res_path`. */
  function OutputPath(stem: string, trans: int, speakerName: string): string
  {
    JoinPath(OutDir, OutputFileName(stem, trans, speakerName))
  }

  /** Joining a relative name onto the output directory appends it. */
  lemma JoinOutDir(rest: string)
    requires |rest| == 0 || rest[0] != '/'
    ensures JoinPath(OutDir, rest) == OutDir + rest
  {
  }

  /** A file name built from a stem without `/` is relative. */
  lemma FileNameRelative(stem: string, trans: int, speakerName: string)
    requires '/' !in stem
    ensures |OutputFileName(stem, trans, speakerName)| > 0
    ensures OutputFileName(stem, trans, speakerName)[0] != '/'
  {
    var rest := OutputFileName(stem, trans, speakerName);
    if |stem| > 0 {
      assert rest[0] == stem[0];
      assert stem[0] in stem;
    } else {
      assert rest[0] == '_';
    }
  }

  /** For a speaker from the list, the output path is the output directory
      followed by `{stem}_{trans}_key_{folder}.wav`. A stem never contains a
      `/`, so it never makes the join discard the directory. */
  lemma OutputPathForSpeaker(stem: string, trans: int, key: string, folder: string)
    requires '/' !in stem && '/' !in folder
    ensures OutputPath(stem, trans, Speakers.DisplayName(key, folder))
            == OutDir + stem + "_" + PyInt.IntToString(trans) + "_key_" + folder + "." + WavFormat
  {
    var name := Speakers.DisplayName(key, folder);
    assert name == key + ['/'] + folder;
    PyStr.LastPartAfterSep(key, '/', folder);
    assert ModelOutputName(name) == folder;
    FileNameRelative(stem, trans, name);
    JoinOutDir(OutputFileName(stem, trans, name));
  }

  /** Two transpositions of the same file for the same speaker never share
      an output path. */
  lemma OutputPathSeparatesTrans(stem: string, t1: int, t2: int, speakerName: string)
    requires OutputPath(stem, t1, speakerName) == OutputPath(stem, t2, speakerName)
    ensures t1 == t2
  {
    var a := PyInt.IntToString(t1);
    var b := PyInt.IntToString(t2);
    var tail := "_key_" + ModelOutputName(speakerName) + "." + WavFormat;
    var r1 := OutputFileName(stem, t1, speakerName);
    var r2 := OutputFileName(stem, t2, speakerName);
    assert r1 == r2 by {
      if |stem| > 0 {
        assert r1[0] == stem[0] && r2[0] == stem[0];
      } else {
        assert r1[0] == '_' && r2[0] == '_';
      }
      if r1[0] != '/' {
        JoinOutDir(r1);
        JoinOutDir(r2);
        assert r1 == (OutDir + r1)[|OutDir|..];
        assert r2 == (OutDir + r2)[|OutDir|..];
      }
    }
    assert r1 == (stem + "_") + a + tail;
    assert r2 == (stem + "_") + b + tail;
    assert |a| == |b|;
    var p := |stem| + 1;
    assert a == r1[p..p + |a|];
    assert b == r2[p..p + |b|];
    PyInt.IntToStringInjective(t1, t2);
  }

  /** `speaker["name"].split('/')[0]`: the key handed to the engine, as the
      driver computes it. */
  function InferKeyAsWritten(name: string): string
  {
    PyStr.Split(name, '/')[0]
  }

  /** For a key without `/` the driver's split recovers the key. */
  lemma InferKeyAsWrittenPlainKey(key: string, folder: string)
    requires '/' !in key && '/' !in folder
    ensures InferKeyAsWritten(Speakers.DisplayName(key, folder)) == key
  {
    assert Speakers.DisplayName(key, folder) == key + ['/'] + folder;
    PyStr.SplitAround(key, '/', folder);
    PyStr.SplitNoSep(key, '/');
  }

  /** A `spk` key holding a `/` is cut short: the key `a/b` of folder `m`
      becomes the display name `a/b/m`, and the engine is asked for `a`. */
  lemma InferKeyAsWrittenLosesSlashKey()
    ensures Speakers.DisplayName("a/b", "m") == "a/b/m"
    ensures InferKeyAsWritten(Speakers.DisplayName("a/b", "m")) == "a"
  {
    assert Speakers.DisplayName("a/b", "m") == "a" + ['/'] + ("b" + ['/'] + "m");
    PyStr.SplitAround("a", '/', "b" + ['/'] + "m");
    PyStr.SplitNoSep("a", '/');
  }

  /** The key handed to the engine: the display name up to its last `/`,
      which undoes `DisplayName` for every key. */
  function SpeakerKey(name: string): string
  {
    var parts := PyStr.Split(name, '/');
    if |parts| == 1 then name else PyStr.Join(parts[..|parts| - 1], '/')
  }

  lemma SpeakerKeyOfDisplayName(key: string, folder: string)
    requires '/' !in folder
    ensures SpeakerKey(Speakers.DisplayName(key, folder)) == key
  {
    assert Speakers.DisplayName(key, folder) == key + ['/'] + folder;
    PyStr.SplitAround(key, '/', folder);
    PyStr.SplitNoSep(folder, '/');
    var parts := PyStr.Split(Speakers.DisplayName(key, folder), '/');
    assert parts[..|parts| - 1] == PyStr.Split(key, '/');
    PyStr.JoinSplit(key, '/');
  }

  /** The arguments of `svc_model.infer` for one voiced segment, as the
      driver builds them: the key is the display name up to its first `/`.
      The typed cluster ratio only applies when the speaker has a clustering
      model. */
  function BuildRequest(sp: Speakers.Speaker, trans: int, clusterRatio: real, autoPitch: bool, noiseScale: real)
    : Conversion.InferRequest
  {
    Conversion.InferRequest(
      InferKeyAsWritten(sp.name), trans,
      if sp.files.clusterPath != "" then clusterRatio else 0.0,
      autoPitch, noiseScale)
  }

  /** The same arguments with the key recovered by `SpeakerKey`, which is
      right for keys holding a `/` as well. */
  function BuildRequestCorrected(sp: Speakers.Speaker, trans: int, clusterRatio: real, autoPitch: bool, noiseScale: real)
    : Conversion.InferRequest
  {
    BuildRequest(sp, trans, clusterRatio, autoPitch, noiseScale).(speaker := SpeakerKey(sp.name))
  }

  /** When its own `spk` key holds no `/`, every speaker of the list is converted
      under one of its folder's non-hidden `spk` keys, and without clustering
      when its folder has no clustering model. */
  lemma RequestForListedSpeaker(cfgs: seq<Speakers.FolderConfig>, sp: Speakers.Speaker,
                                trans: int, clusterRatio: real, autoPitch: bool, noiseScale: real)
    requires sp in Speakers.GetSpeakers(cfgs)
    requires forall c :: c in cfgs ==> '/' !in c.files.modelFolder
    requires forall c, e :: c in cfgs && e in c.spk && sp == Speakers.Entry(c.files, e) ==> '/' !in e.0
    ensures exists c, e :: c in cfgs && e in c.spk && !Speakers.Hidden(e.0)
              && BuildRequest(sp, trans, clusterRatio, autoPitch, noiseScale).speaker == e.0
              && sp.id == e.1 && sp.files == c.files
    ensures sp.files.clusterPath == "" ==>
              BuildRequest(sp, trans, clusterRatio, autoPitch, noiseScale).clusterRatio == 0.0
  {
    Speakers.GetSpeakersSpec(cfgs, sp, "");
    var c, e :| c in cfgs && e in c.spk && !Speakers.Hidden(e.0) && sp == Speakers.Entry(c.files, e);
    InferKeyAsWrittenPlainKey(e.0, c.files.modelFolder);
  }

  /** With the corrected key, every speaker of the list is converted under one
      of its folder's non-hidden `spk` keys, whatever the keys hold. */
  lemma RequestForListedSpeakerCorrected(cfgs: seq<Speakers.FolderConfig>, sp: Speakers.Speaker,
                                         trans: int, clusterRatio: real, autoPitch: bool, noiseScale: real)
    requires sp in Speakers.GetSpeakers(cfgs)
    requires forall c :: c in cfgs ==> '/' !in c.files.modelFolder
    ensures exists c, e :: c in cfgs && e in c.spk && !Speakers.Hidden(e.0)
              && BuildRequestCorrected(sp, trans, clusterRatio, autoPitch, noiseScale).speaker == e.0
              && sp.id == e.1 && sp.files == c.files
    ensures sp.files.clusterPath == "" ==>
              BuildRequestCorrected(sp, trans, clusterRatio, autoPitch, noiseScale).clusterRatio == 0.0
  {
    Speakers.GetSpeakersSpec(cfgs, sp, "");
    var c, e :| c in cfgs && e in c.spk && !Speakers.Hidden(e.0) && sp == Speakers.Entry(c.files, e);
    SpeakerKeyOfDisplayName(e.0, c.files.modelFolder);
  }
}
