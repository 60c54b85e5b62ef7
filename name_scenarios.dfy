/** The end-to-end naming scenarios of the floor-material pass, on concrete mesh names.
    Each name is a parameter fixed by the precondition, so that the verifier reasons
    from the definitions instead of evaluating them on a literal. */
module FloorNameScenarios {
  import opened FloorNames

  /** "Floor_Parquet" is floor-like. */
  lemma FloorParquetIsFloorLike(name: string)
    requires name == "Floor_Parquet"
    ensures IsFloorLike(Lower(name))
  {
    var low := Lower(name);
    assert OccursAt(low, FloorKeywords[0], 0) by {
      assert low[..5] == "floor";
    }
    assert forall k :: 0 <= k < |low| ==> low[k] != 'm';
    MissingFirstLetter(low, MirrorWord);
  }

  /** "Mirror_Floor" contains "floor" but is not floor-like. */
  lemma MirrorFloorIsExcluded(name: string)
    requires name == "Mirror_Floor"
    ensures ContainsAny(Lower(name), FloorKeywords)
    ensures !IsFloorLike(Lower(name))
  {
    var low := Lower(name);
    assert OccursAt(low, FloorKeywords[0], 7) by {
      assert low[7..12] == "floor";
    }
    assert OccursAt(low, MirrorWord, 0) by {
      assert low[..6] == "mirror";
    }
  }

  /** "MIRROR_FLOOR" in capitals is excluded just the same. */
  lemma UpperCaseMirrorIsExcluded(name: string)
    requires name == "MIRROR_FLOOR"
    ensures !IsFloorLike(Lower(name))
  {
    var low := Lower(name);
    assert OccursAt(low, MirrorWord, 0) by {
      assert low[..6] == "mirror";
    }
  }

  /** "Wall_01" matches no floor keyword. */
  lemma WallIsNotFloorLike(name: string)
    requires name == "Wall_01"
    ensures !ContainsAny(Lower(name), FloorKeywords)
  {
    var low := Lower(name);
    assert forall k :: 0 <= k < |low| ==> low[k] !in "fpzg";
    forall j | 0 <= j < |FloorKeywords| ensures !Contains(low, FloorKeywords[j]) {
      MissingFirstLetter(low, FloorKeywords[j]);
    }
  }
}
