/** The speaker list of the conversion window: one entry per non-hidden key
    of each model folder's `spk` map, named `key/folder`, sorted by the
    lower-cased name. Finding the folders and reading their files is not
    part of this model; each folder arrives with its paths and its parsed
    `spk` map. */
module Speakers {
  import PyStr
  import Sorting

  /** The paths found in one model folder. An empty `clusterPath` means the
      folder has no clustering model. */
  datatype SpeakerFiles = SpeakerFiles(
    modelPath: string,
    modelFolder: string,
    clusterPath: string,
    cfgPath: string)

  /** One entry of the speaker list. */
  datatype Speaker = Speaker(files: SpeakerFiles, name: string, id: int)

  /** A model folder with the `spk` map of its config, in the map's order. */
  datatype FolderConfig = FolderConfig(files: SpeakerFiles, spk: seq<(string, int)>)

  /** Keys starting with `.` are not offered. */
  predicate Hidden(key: string)
  {
    PyStr.StartsWith(key, ".")
  }

  /** `f'{name}/{folder}'`. */
  function DisplayName(key: string, folder: string): string
  {
    key + "/" + folder
  }

  /** The list entry for one `spk` pair. */
  function Entry(files: SpeakerFiles, e: (string, int)): Speaker
  {
    Speaker(files, DisplayName(e.0, files.modelFolder), e.1)
  }

  /** The entries one folder contributes, in `spk` order. */
  function FolderSpeakers(files: SpeakerFiles, spk: seq<(string, int)>): (r: seq<Speaker>)
    ensures |r| <= |spk|
    decreases |spk|
  {
    if |spk| == 0 then []
    else
      var e := spk[|spk| - 1];
      FolderSpeakers(files, spk[..|spk| - 1]) + (if Hidden(e.0) then [] else [Entry(files, e)])
  }

  /** The number of `spk` pairs whose key does not start with `.`. */
  function NonHiddenCount(spk: seq<(string, int)>): nat
    decreases |spk|
  {
    if |spk| == 0 then 0
    else NonHiddenCount(spk[..|spk| - 1]) + (if Hidden(spk[|spk| - 1].0) then 0 else 1)
  }

  /** A folder offers exactly the entries of its non-hidden keys, one entry
      per such key. */
  lemma {:induction false} FolderSpeakersMembership(files: SpeakerFiles, spk: seq<(string, int)>, sp: Speaker)
    ensures sp in FolderSpeakers(files, spk) <==>
            exists e :: e in spk && !Hidden(e.0) && sp == Entry(files, e)
    ensures |FolderSpeakers(files, spk)| == NonHiddenCount(spk)
    decreases |spk|
  {
    if |spk| > 0 {
      var n := |spk| - 1;
      FolderSpeakersMembership(files, spk[..n], sp);
      assert spk == spk[..n] + [spk[n]];
    }
  }

  /** The entries of all folders, folder by folder. */
  function Collect(cfgs: seq<FolderConfig>): seq<Speaker>
    decreases |cfgs|
  {
    if |cfgs| == 0 then []
    else
      var c := cfgs[|cfgs| - 1];
      Collect(cfgs[..|cfgs| - 1]) + FolderSpeakers(c.files, c.spk)
  }

  lemma {:induction false} CollectMembership(cfgs: seq<FolderConfig>, sp: Speaker)
    ensures sp in Collect(cfgs) <==> exists c :: c in cfgs && sp in FolderSpeakers(c.files, c.spk)
    decreases |cfgs|
  {
    if |cfgs| > 0 {
      var n := |cfgs| - 1;
      CollectMembership(cfgs[..n], sp);
      assert cfgs == cfgs[..n] + [cfgs[n]];
    }
  }

  /** `x["name"].lower()`, the sort key. */
  function SortKey(sp: Speaker): string
  {
    PyStr.Lower(sp.name)
  }

  /** Python's string order is a total preorder. */
  lemma LexLeqTotalPreorder()
    ensures Sorting.TotalPreorder(PyStr.LexLeq)
  {
    forall a, b
      ensures PyStr.LexLeq(a, b) || PyStr.LexLeq(b, a)
    {
      PyStr.LexLeqTotal(a, b);
    }
    forall a, b, c | PyStr.LexLeq(a, b) && PyStr.LexLeq(b, c)
      ensures PyStr.LexLeq(a, c)
    {
      PyStr.LexLeqTransitive(a, b, c);
    }
  }

  /** `get_speakers` after the folders were read: the collected entries,
      sorted by lower-cased name with Python's stable `sorted`. */
  function GetSpeakers(cfgs: seq<FolderConfig>): seq<Speaker>
  {
    Sorting.SortBy(Collect(cfgs), SortKey, PyStr.LexLeq)
  }

  /** The speaker list is sorted by lower-cased name, holds each non-hidden
      `spk` entry of each folder as often as the folders produce it, keeps
      equal keys in folder and map order, and holds nothing else. */
  lemma GetSpeakersSpec(cfgs: seq<FolderConfig>, sp: Speaker, k: string)
    ensures Sorting.SortedBy(GetSpeakers(cfgs), SortKey, PyStr.LexLeq)
    ensures multiset(GetSpeakers(cfgs)) == multiset(Collect(cfgs))
    ensures Sorting.KeyRun(GetSpeakers(cfgs), SortKey, k) == Sorting.KeyRun(Collect(cfgs), SortKey, k)
    ensures sp in GetSpeakers(cfgs) <==>
            exists c, e :: c in cfgs && e in c.spk && !Hidden(e.0) && sp == Entry(c.files, e)
  {
    LexLeqTotalPreorder();
    Sorting.SortSorted(Collect(cfgs), SortKey, PyStr.LexLeq);
    Sorting.SortPermutes(Collect(cfgs), SortKey, PyStr.LexLeq);
    Sorting.SortStable(Collect(cfgs), SortKey, PyStr.LexLeq, k);
    CollectMembership(cfgs, sp);
    assert sp in GetSpeakers(cfgs) <==> sp in multiset(Collect(cfgs));
    forall c | c in cfgs {
      FolderSpeakersMembership(c.files, c.spk, sp);
    }
  }
}
