/** The input-path filter of the conversion window: the globbed paths that
    carry a supported audio extension and are not already tracked. */
module InputFiles {
  import PyStr

  /** The extensions the window accepts, in the order the source lists them. */
  const AudioExtensions: seq<string> := [".wav", ".flac", ".mp3", ".ogg", ".opus"]

  /** `any(f.endswith(ex) for ex in [...])`. */
  predicate HasAudioExtension(f: string)
  {
    exists ex :: ex in AudioExtensions && PyStr.EndsWith(f, ex)
  }

  /** The comprehension's condition for one path. */
  predicate Selected(f: string, existing: seq<string>)
  {
    f !in existing && HasAudioExtension(f)
  }

  /** `[f for f in globbed if f not in existing_files and any(...)]`. */
  function InputFilepaths(globbed: seq<string>, existing: seq<string>): (r: seq<string>)
    ensures |r| <= |globbed|
    decreases |globbed|
  {
    if |globbed| == 0 then []
    else
      var rest := InputFilepaths(globbed[..|globbed| - 1], existing);
      var f := globbed[|globbed| - 1];
      if Selected(f, existing) then rest + [f] else rest
  }

  /** A path is returned exactly when it was globbed, has a supported
      extension and is not tracked. */
  lemma {:induction false} FilterMembership(globbed: seq<string>, existing: seq<string>, f: string)
    ensures f in InputFilepaths(globbed, existing) <==> f in globbed && Selected(f, existing)
    decreases |globbed|
  {
    if |globbed| > 0 {
      var n := |globbed| - 1;
      FilterMembership(globbed[..n], existing, f);
      assert globbed == globbed[..n] + [globbed[n]];
    }
  }

  /** The filter works path by path: filtering a concatenation concatenates
      the filtered parts, so glob order is kept. */
  lemma {:induction false} FilterAppend(a: seq<string>, b: seq<string>, existing: seq<string>)
    ensures InputFilepaths(a + b, existing) == InputFilepaths(a, existing) + InputFilepaths(b, existing)
    decreases |b|
  {
    if |b| == 0 {
      assert a + b == a;
    } else {
      var n := |b| - 1;
      assert (a + b)[..|a + b| - 1] == a + b[..n];
      assert (a + b)[|a + b| - 1] == b[n];
      FilterAppend(a, b[..n], existing);
    }
  }

  /** Filtering twice removes nothing more. */
  lemma {:induction false} FilterIdempotent(globbed: seq<string>, existing: seq<string>)
    ensures InputFilepaths(InputFilepaths(globbed, existing), existing) == InputFilepaths(globbed, existing)
    decreases |globbed|
  {
    if |globbed| > 0 {
      var n := |globbed| - 1;
      var rest := InputFilepaths(globbed[..n], existing);
      FilterIdempotent(globbed[..n], existing);
      var x := globbed[n];
      if Selected(x, existing) {
        assert InputFilepaths(globbed, existing) == rest + [x];
        FilterAppend(rest, [x], existing);
        assert [x][..0] == [];
        assert InputFilepaths([x], existing) == [x];
      } else {
        assert InputFilepaths(globbed, existing) == rest;
      }
    }
  }
}
