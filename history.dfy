/** The saved-inputs history that all three calculators keep in
    `user_data.json`: `save_user_data` reads the stored list (none when the
    file is missing), appends the new inputs and keeps only the last three;
    `load_user_data` returns the stored list. The file is modelled as a field
    that is `None` until the first save. */
module History {

  import opened Wrappers
  import opened Projection

  /** The most entries the history keeps. */
  const Capacity: nat := 3

  /** What reading the file gives: the stored list, or `[]` when there is no file. */
  function Stored(file: Option<seq<Profile>>): seq<Profile>
  {
    if file.Some? then file.value else []
  }

  /** `stored_data[-3:]` applied when the list is longer than three: the last
      `min(|entries|, 3)` entries, in their original order. */
  function KeepLast(entries: seq<Profile>): (kept: seq<Profile>)
    ensures |kept| == if |entries| < Capacity then |entries| else Capacity
    ensures forall i :: 0 <= i < |kept| ==> kept[i] == entries[|entries| - |kept| + i]
  {
    if |entries| > Capacity then entries[|entries| - Capacity..] else entries
  }

  class HistoryFile {
    /** The contents of `user_data.json`, or `None` while it does not exist. */
    var file: Option<seq<Profile>>

    /** No history has been saved yet. */
    constructor ()
      ensures file == None
    {
      file := None;
    }

    /** `load_user_data`: the stored list, or the empty list without a file. */
    method Load() returns (entries: seq<Profile>)
      ensures file.None? ==> entries == []
      ensures file.Some? ==> entries == file.value
    {
      if file.Some? {
        entries := file.value;
      } else {
        entries := [];
      }
    }

    /** `save_user_data`: append, then keep the last three. */
    method Save(data: Profile)
      modifies this
      ensures file == Some(KeepLast(Stored(old(file)) + [data]))
    {
      var storedData := Stored(file);
      storedData := storedData + [data];
      if |storedData| > Capacity {
        storedData := storedData[|storedData| - Capacity..];
      }
      file := Some(storedData);
    }
  }

  /** After a save the history ends with the new entry, holds at most three
      entries, keeps the old ones that survive in their order, and drops
      nothing while it is short. */
  lemma SaveKeepsNewestThree(before: seq<Profile>, data: Profile)
    ensures |KeepLast(before + [data])| == if |before| < Capacity then |before| + 1 else Capacity
    ensures KeepLast(before + [data])[|KeepLast(before + [data])| - 1] == data
    ensures forall i :: 0 <= i < |KeepLast(before + [data])| - 1 ==>
              KeepLast(before + [data])[i] == before[|before| + 1 - |KeepLast(before + [data])| + i]
    ensures |before| < Capacity ==> KeepLast(before + [data]) == before + [data]
  {
    var all := before + [data];
    var saved := KeepLast(all);
    assert saved[|saved| - 1] == all[|all| - 1];
    forall i | 0 <= i < |saved| - 1
      ensures saved[i] == before[|before| + 1 - |saved| + i]
    {
      assert saved[i] == all[|all| - |saved| + i];
    }
  }

  /** Three saves in a row leave exactly the three saved inputs, oldest
      first, whatever was stored before. */
  lemma ThreeSavesReplaceHistory(before: seq<Profile>, a: Profile, b: Profile, c: Profile)
    ensures KeepLast(KeepLast(KeepLast(before + [a]) + [b]) + [c]) == [a, b, c]
  {
    var one := KeepLast(before + [a]);
    var two := KeepLast(one + [b]);
    var three := KeepLast(two + [c]);
    assert one[|one| - 1] == a;
    assert two[|two| - 1] == b && two[|two| - 2] == a;
    assert three[0] == a && three[1] == b && three[2] == c;
  }
}
