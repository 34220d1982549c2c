/** Resuming a list of items after the last one a checkpointed step reported. */
module Resume {
  import opened Collections

  /** How many items are skipped: up to and including the first whose key is the cursor. */
  function ResumeIndex<K(==)>(keys: seq<K>, cursor: Option<K>): (r: nat)
    ensures r <= |keys|
    ensures cursor.None? ==> r == 0
    ensures cursor.Some? && cursor.value !in keys ==> r == |keys|
    ensures cursor.Some? && cursor.value in keys ==>
            r > 0 && keys[r - 1] == cursor.value && cursor.value !in keys[..r - 1]
  {
    if cursor.None? || keys == [] then 0
    else if keys[0] == cursor.value then 1
    else
      var rest := ResumeIndex(keys[1..], cursor);
      assert cursor.value in keys ==> keys[..rest] == [keys[0]] + keys[1..][..rest - 1];
      rest + 1
  }

  method PendingAfterCursor<K(==), V>(items: seq<V>, keys: seq<K>, cursor: Option<K>)
    returns (pending: seq<V>, processed: nat)
    requires |items| == |keys|
    ensures processed == ResumeIndex(keys, cursor)
    ensures pending == items[processed..]
  {
    if cursor.None? {
      return items, 0;
    }
    processed := 0;
    pending := [];
    var skipping := true;
    for i := 0 to |items|
      invariant skipping ==> processed == i && pending == [] && cursor.value !in keys[..i]
      invariant !skipping ==>
                  && 0 < processed <= i && pending == items[processed..i]
                  && keys[processed - 1] == cursor.value && cursor.value !in keys[..processed - 1]
    {
      if skipping {
        processed := processed + 1;
        if keys[i] == cursor.value {
          skipping := false;
        }
      } else {
        pending := pending + [items[i]];
      }
    }
    if skipping {
      processed := |items|;
    } else {
      FirstOccurrence(keys, cursor.value, processed - 1);
    }
  }

  lemma FirstOccurrence<K>(keys: seq<K>, x: K, i: nat)
    requires i < |keys| && keys[i] == x && x !in keys[..i]
    ensures ResumeIndex(keys, Some(x)) == i + 1
  {
    assert keys[i] in keys;
  }
}
