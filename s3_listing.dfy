/**
 * The two folds of lib/s3/storage.go that turn one page of a bucket listing
 * into names: `contents` over the object keys, `prefixes` over the common
 * prefixes of a delimited listing.
 *
 * `contents` keeps a key without "/" as it is and reduces a nested key to its
 * first segment, which it adds unless the entry of the result at index
 * (number of segments - 1) already equals it. That index is out of range, and
 * Go panics, whenever the result is shorter than the key has segments; it is
 * modelled as None. IntendedContentsOf compares with the last entry instead,
 * the check the source's own comment describes.
 */
module S3Listing {
  import opened Wrappers
  import opened PathStrings

  predicate IsNested(key: string)
  {
    '/' in key
  }

  function FirstSegment(key: string): string
  {
    Split(key, '/')[0]
  }

  /** One iteration of the `contents` loop; None when `result[len(p)-1]` is out of range. */
  function ContentsStep(result: seq<string>, key: string): Option<seq<string>>
  {
    var p := Split(key, '/');
    if |p| == 1 then Some(result + [key])
    else if |p| - 1 >= |result| then None
    else if result[|p| - 1] != p[0] then Some(result + [p[0]])
    else Some(result)
  }

  /** The `contents` loop run over `keys` from an accumulated `result`. */
  function ContentsFrom(result: seq<string>, keys: seq<string>): Option<seq<string>>
    decreases |keys|
  {
    if keys == [] then Some(result)
    else
      match ContentsStep(result, keys[0])
      case None => None
      case Some(next) => ContentsFrom(next, keys[1..])
  }

  function ContentsOf(keys: seq<string>): Option<seq<string>>
  {
    ContentsFrom([], keys)
  }

  /** contents(res), over the keys of res.Contents in listing order. */
  method Contents(keys: seq<string>) returns (r: Option<seq<string>>)
    ensures r == ContentsOf(keys)
  {
    var result: seq<string> := [];
    for i := 0 to |keys|
      invariant ContentsFrom(result, keys[i..]) == ContentsOf(keys)
    {
      var key := keys[i];
      assert keys[i..][0] == key && keys[i..][1..] == keys[i + 1..];
      var p := Split(key, '/');
      if |p| == 1 {
        result := result + [key];
      } else if |p| - 1 >= |result| {
        return None;
      } else if result[|p| - 1] != p[0] {
        result := result + [p[0]];
      }
    }
    assert keys[|keys|..] == [];
    r := Some(result);
  }

  /** The result never grows by more than one name per key. */
  lemma {:induction false} ContentsNoLonger(result: seq<string>, keys: seq<string>)
    ensures ContentsFrom(result, keys).Some? ==> |ContentsFrom(result, keys).value| <= |result| + |keys|
    decreases |keys|
  {
    if keys != [] {
      match ContentsStep(result, keys[0])
      case None =>
      case Some(next) => ContentsNoLonger(next, keys[1..]);
    }
  }

  /** A listing of flat keys is returned unchanged. */
  lemma {:induction false} ContentsOfFlatKeys(result: seq<string>, keys: seq<string>)
    requires forall i :: 0 <= i < |keys| ==> !IsNested(keys[i])
    ensures ContentsFrom(result, keys) == Some(result + keys)
    decreases |keys|
  {
    if keys != [] {
      var k, rest := keys[0], keys[1..];
      SplitSingle(k, '/');
      ContentsOfFlatKeys(result + [k], rest);
      assert result + [k] + rest == result + keys;
    } else {
      assert result + keys == result;
    }
  }

  /** Every name in the result is a flat key of the listing or the first segment of a nested one. */
  lemma {:induction false} ContentsProvenance(result: seq<string>, keys: seq<string>)
    requires ContentsFrom(result, keys).Some?
    ensures forall x :: x in ContentsFrom(result, keys).value ==>
      x in result || exists i :: 0 <= i < |keys| && x == (if IsNested(keys[i]) then FirstSegment(keys[i]) else keys[i])
    decreases |keys|
  {
    if keys != [] {
      var k := keys[0];
      SplitSingle(k, '/');
      var next := ContentsStep(result, k).value;
      ContentsProvenance(next, keys[1..]);
      forall x | x in ContentsFrom(result, keys).value
        ensures x in result || exists i :: 0 <= i < |keys| && x == (if IsNested(keys[i]) then FirstSegment(keys[i]) else keys[i])
      {
        if x !in result {
          if x in next {
            assert x == (if IsNested(keys[0]) then FirstSegment(keys[0]) else keys[0]);
          } else {
            var i :| 0 <= i < |keys[1..]| && x == (if IsNested(keys[1..][i]) then FirstSegment(keys[1..][i]) else keys[1..][i]);
            assert keys[1..][i] == keys[i + 1];
          }
        }
      }
    }
  }

  /** A nested key at the head of a listing makes `contents` index an empty result: Go panics. */
  lemma ContentsPanicsOnLeadingFolder()
    ensures ContentsOf(["dir/a"]) == None
  {
    TwoLevelKeyStep([], "dir", "a");
    assert "dir" + "/" + "a" == "dir/a";
  }

  /** A key "dir/name" one level deep is checked against result[1], whatever was added last. */
  lemma TwoLevelKeyStep(result: seq<string>, dir: string, name: string)
    requires '/' !in dir && '/' !in name
    ensures var key := dir + "/" + name;
      Split(key, '/') == [dir, name] &&
      ContentsStep(result, key) == if |result| < 2 then None else if result[1] != dir then Some(result + [dir]) else Some(result)
  {
    SplitAtFirst(dir, name, '/');
    SplitSingle(name, '/');
  }

  /**
   * After two flat keys, the index (segments - 1) = 1 points at the second
   * flat key, not at the folder just added, so a folder holding two objects
   * is listed twice.
   */
  lemma FolderAfterTwoFilesRepeats(a: string, b: string, dir: string, x: string, y: string)
    requires '/' !in a && '/' !in b && '/' !in dir && '/' !in x && '/' !in y
    requires b != dir
    ensures ContentsOf([a, b, dir + "/" + x, dir + "/" + y]) == Some([a, b, dir, dir])
  {
    SplitSingle(a, '/');
    SplitSingle(b, '/');
    var dx, dy := dir + "/" + x, dir + "/" + y;
    var r1, r2, r3, r4 := [a], [a, b], [a, b, dir], [a, b, dir, dir];
    TwoLevelKeyStep(r2, dir, x);
    TwoLevelKeyStep(r3, dir, y);
    assert [] + [a] == r1 && r1 + [b] == r2 && r2 + [dir] == r3 && r3 + [dir] == r4;
    assert ContentsStep([], a) == Some(r1) && ContentsStep(r1, b) == Some(r2);
    var keys := [a, b, dx, dy];
    assert keys[1..] == [b, dx, dy] && [b, dx, dy][1..] == [dx, dy] && [dx, dy][1..] == [dy] && [dy][1..] == [];
    assert ContentsFrom(r3, [dy]) == ContentsFrom(r4, []);
    assert ContentsFrom(r2, [dx, dy]) == ContentsFrom(r3, [dy]);
    assert ContentsFrom(r1, [b, dx, dy]) == ContentsFrom(r2, [dx, dy]);
    assert ContentsFrom([], keys) == ContentsFrom(r1, [b, dx, dy]);
  }

  /** The listing a, b, dir/x, dir/y comes back as a, b, dir, dir. */
  lemma ContentsRepeatsFolder()
    ensures ContentsOf(["a", "b", "dir/x", "dir/y"]) == Some(["a", "b", "dir", "dir"])
  {
    FolderAfterTwoFilesRepeats("a", "b", "dir", "x", "y");
    assert "dir" + "/" + "x" == "dir/x" && "dir" + "/" + "y" == "dir/y";
  }

  /** One iteration as evidently intended: a folder is added unless it is the last name added. */
  function IntendedContentsStep(result: seq<string>, key: string): seq<string>
  {
    var p := Split(key, '/');
    if |p| == 1 then result + [key]
    else if result == [] || result[|result| - 1] != p[0] then result + [p[0]]
    else result
  }

  function IntendedContentsFrom(result: seq<string>, keys: seq<string>): seq<string>
    decreases |keys|
  {
    if keys == [] then result else IntendedContentsFrom(IntendedContentsStep(result, keys[0]), keys[1..])
  }

  function IntendedContentsOf(keys: seq<string>): seq<string>
  {
    IntendedContentsFrom([], keys)
  }

  predicate NoAdjacentRepeats(names: seq<string>)
  {
    forall i :: 0 <= i < |names| - 1 ==> names[i] != names[i + 1]
  }

  /** Keys of a bucket are distinct. */
  predicate DistinctKeys(keys: seq<string>)
  {
    forall i, j :: 0 <= i < j < |keys| ==> keys[i] != keys[j]
  }

  /** No flat key has the name of a folder that a nested key lives in. */
  predicate NoFileFolderClash(keys: seq<string>)
  {
    forall i, j :: 0 <= i < |keys| && 0 <= j < |keys| && IsNested(keys[j]) ==> keys[i] != FirstSegment(keys[j])
  }

  /**
   * With the intended check, distinct keys give a result in which no name
   * follows itself: every folder of consecutive nested keys is listed once.
   */
  lemma {:induction false} IntendedContentsNoRepeats(result: seq<string>, keys: seq<string>)
    requires NoAdjacentRepeats(result)
    requires result != [] ==> forall i :: 0 <= i < |keys| && !IsNested(keys[i]) ==> keys[i] != result[|result| - 1]
    requires DistinctKeys(keys) && NoFileFolderClash(keys)
    ensures NoAdjacentRepeats(IntendedContentsFrom(result, keys))
    decreases |keys|
  {
    if keys != [] {
      var k := keys[0];
      var rest := keys[1..];
      SplitSingle(k, '/');
      var next := IntendedContentsStep(result, k);
      assert forall i :: 0 <= i < |rest| ==> rest[i] == keys[i + 1];
      assert NoAdjacentRepeats(next);
      assert next != [] ==> forall i :: 0 <= i < |rest| && !IsNested(rest[i]) ==> rest[i] != next[|next| - 1] by {
        if next != [] {
          forall i | 0 <= i < |rest| && !IsNested(rest[i]) ensures rest[i] != next[|next| - 1] {
            assert rest[i] == keys[i + 1];
            if !IsNested(k) {
              assert next[|next| - 1] == keys[0];
            } else if next != result {
              assert next[|next| - 1] == FirstSegment(keys[0]);
            }
          }
        }
      }
      IntendedContentsNoRepeats(next, rest);
    }
  }

  /** The intended fold never panics and agrees with `contents` on flat listings. */
  lemma {:induction false} IntendedAgreesOnFlatKeys(result: seq<string>, keys: seq<string>)
    requires forall i :: 0 <= i < |keys| ==> !IsNested(keys[i])
    ensures ContentsFrom(result, keys) == Some(IntendedContentsFrom(result, keys))
    decreases |keys|
  {
    if keys != [] {
      SplitSingle(keys[0], '/');
      IntendedAgreesOnFlatKeys(result + [keys[0]], keys[1..]);
    }
  }

  /** prefixes(res): the base name of every common prefix, in order. */
  method Prefixes(commonPrefixes: seq<string>) returns (result: seq<string>)
    ensures |result| == |commonPrefixes|
    ensures forall i :: 0 <= i < |result| ==> result[i] == Base(commonPrefixes[i])
  {
    result := [];
    for i := 0 to |commonPrefixes|
      invariant |result| == i
      invariant forall j :: 0 <= j < i ==> result[j] == Base(commonPrefixes[j])
    {
      var name := Base(commonPrefixes[i]);
      result := result + [name];
    }
  }
}
