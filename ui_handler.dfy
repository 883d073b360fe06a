/** The inventory list on screen: the selected index, the entry labels and the display names. */
module UI {
  import opened GameWorld

  /** What one entry shows: its text, and whether it is drawn in the highlight colour. */
  datatype Label = Label(text: string, highlighted: bool)

  const NotAvailable: Label := Label("N/A", false)

  // ---------------------------------------------------------------- display names

  predicate OccursAt(s: string, pat: string, i: int) {
    0 <= i && i + |pat| <= |s| && s[i..i + |pat|] == pat
  }

  predicate Occurs(s: string, pat: string) {
    exists i :: 0 <= i <= |s| && OccursAt(s, pat, i)
  }

  /** `string.Replace(pat, "")`: one left-to-right pass deleting non-overlapping occurrences. */
  function RemoveAll(s: string, pat: string): (r: string)
    requires pat != []
    ensures |r| <= |s|
    decreases |s|
  {
    if |s| < |pat| then s
    else if s[..|pat|] == pat then RemoveAll(s[|pat|..], pat)
    else [s[0]] + RemoveAll(s[1..], pat)
  }

  lemma {:induction false} RemoveAllAbsent(s: string, pat: string)
    requires pat != [] && !Occurs(s, pat)
    ensures RemoveAll(s, pat) == s
    decreases |s|
  {
    if |s| >= |pat| {
      assert !OccursAt(s, pat, 0);
      assert !Occurs(s[1..], pat) by {
        forall i | OccursAt(s[1..], pat, i) ensures false {
          assert s[1..][i..i + |pat|] == s[i + 1..i + 1 + |pat|];
          assert OccursAt(s, pat, i + 1);
        }
      }
      RemoveAllAbsent(s[1..], pat);
    }
  }

  function UpperChar(c: char): char {
    if 'a' <= c <= 'z' then (c as int - 32) as char else c
  }

  /** The ASCII part of `ToUpper`. */
  function ToUpper(s: string): (r: string)
    ensures |r| == |s|
    ensures forall i :: 0 <= i < |r| ==> !('a' <= r[i] <= 'z')
  {
    seq(|s|, i requires 0 <= i < |s| => UpperChar(s[i]))
  }

  lemma ToUpperIdempotent(s: string)
    ensures ToUpper(ToUpper(s)) == ToUpper(s)
  {
  }

  /** The name an entry shows: the three clone/item markers removed, then upper-cased. */
  function DisplayName(name: string): (r: string)
    ensures |r| <= |name|
    ensures forall i :: 0 <= i < |r| ==> !('a' <= r[i] <= 'z')
  {
    ToUpper(RemoveAll(RemoveAll(RemoveAll(name, "(Clone)"), "(itemx)"), "(xxxxx)"))
  }

  /** A name carrying none of the markers is only upper-cased. */
  lemma DisplayNameWithoutMarkers(name: string)
    requires !Occurs(name, "(Clone)") && !Occurs(name, "(itemx)") && !Occurs(name, "(xxxxx)")
    ensures DisplayName(name) == ToUpper(name)
  {
    RemoveAllAbsent(name, "(Clone)");
    RemoveAllAbsent(name, "(itemx)");
    RemoveAllAbsent(name, "(xxxxx)");
  }

  /** A marker at the very end of a name is removed. */
  lemma {:induction false} RemoveAllSuffix(stem: string, pat: string)
    requires pat != []
    requires forall i :: 0 <= i < |stem| ==> !OccursAt(stem + pat, pat, i)
    ensures RemoveAll(stem + pat, pat) == stem
    decreases |stem|
  {
    var s := stem + pat;
    if |stem| == 0 {
      assert s[..|pat|] == pat;
      assert s[|pat|..] == [];
    } else {
      assert !OccursAt(s, pat, 0);
      assert s[1..] == stem[1..] + pat;
      forall i | 0 <= i < |stem[1..]| ensures !OccursAt(stem[1..] + pat, pat, i) {
        assert (stem[1..] + pat)[i..i + |pat|] == s[i + 1..i + 1 + |pat|];
        assert !OccursAt(s, pat, i + 1);
      }
      RemoveAllSuffix(stem[1..], pat);
    }
  }

  // ---------------------------------------------------------------- selected index

  /** AdjustActiveIndex: step up or down, wrapping below 0 to the last index and past the end to 0. */
  function AdjustedIndex(cur: int, up: bool, count: int): (r: int)
    ensures 0 <= cur < count ==> 0 <= r < count
    ensures 0 < count && cur == count - 1 && up ==> r == 0
    ensures 0 < count && cur == 0 && !up ==> r == count - 1
    ensures count == 0 && cur == 0 ==> r == (if up then 0 else -1)
  {
    var next := if up then cur + 1 else cur - 1;
    if next < 0 then count - 1
    else if next >= count then 0
    else next
  }

  /** Stepping one way and back returns to the same in-range index. */
  lemma AdjustedIndexRoundTrip(cur: int, up: bool, count: int)
    requires 0 <= cur < count
    ensures AdjustedIndex(AdjustedIndex(cur, up, count), !up, count) == cur
  {
  }

  // ---------------------------------------------------------------- entries

  /** What Refresh leaves on screen: "N/A" alone for an empty list, else one entry per item. */
  function EntryLabels(items: seq<GameObject>, cur: int): (r: seq<Label>)
    ensures |r| == Max(1, |items|)
    ensures forall i :: 0 <= i < |r| ==> (r[i].highlighted <==> |items| > 0 && i == cur)
  {
    if |items| == 0 then [NotAvailable]
    else seq(|items|, i requires 0 <= i < |items| => Label(DisplayName(items[i].name), i == cur))
  }

  class UIHandler {
    var CurIndex: int
    /** Whether the list is open (`gameObject.activeSelf`). */
    var active: bool
    var Entries: seq<Label>

    /** There is always an entry to copy, and few enough that the byte loop counters of Refresh do not wrap. */
    ghost predicate Valid()
      reads this
    {
      1 <= |Entries| < 256
    }

    constructor (template: Label)
      ensures Valid() && CurIndex == 0 && !active && Entries == [template]
    {
      CurIndex := 0;
      Entries := [template];
      active := false;
    }

    /** Opens or closes the list. */
    method Toggle()
      modifies this`active
      ensures active == !old(active)
    {
      active := !active;
    }

    method Refresh(items: seq<GameObject>)
      requires Valid() && |items| < 256
      modifies this`Entries
      ensures Valid()
      ensures active ==> Entries == EntryLabels(items, CurIndex)
      ensures !active ==> Entries == old(Entries)
    {
      if !active {
        return;
      }
      var difference := |items| - |Entries|;
      if difference != 0 {
        var magnitude := if difference < 0 then -difference else difference;
        var i := 0;
        while i < magnitude
          invariant 0 <= i <= magnitude
          invariant 1 <= |Entries|
          invariant difference > 0 ==> |Entries| == |old(Entries)| + i
          invariant difference < 0 ==> |Entries| == Max(1, |old(Entries)| - i)
        {
          if difference > 0 {
            Entries := Entries + [Entries[0]];
          } else {
            if |Entries| > 1 {
              Entries := Entries[..|Entries| - 1];
            }
          }
          i := i + 1;
        }
      }
      assert |Entries| == Max(1, |items|);
      var i := 0;
      while i < |Entries|
        invariant 0 <= i <= |Entries| == Max(1, |items|)
        invariant |items| == 0 ==> i == 0
        invariant |items| > 0 ==> forall j :: 0 <= j < i ==> Entries[j] == EntryLabels(items, CurIndex)[j]
      {
        if |items| == 0 {
          Entries := Entries[0 := NotAvailable];
          assert Entries == [NotAvailable];
          break;
        }
        Entries := Entries[i := Label(DisplayName(items[i].name), i == CurIndex)];
        i := i + 1;
      }
    }

    method AdjustActiveIndex(up: bool, items: seq<GameObject>)
      requires Valid() && |items| < 256
      modifies this`CurIndex, this`Entries
      ensures Valid()
      ensures CurIndex == AdjustedIndex(old(CurIndex), up, |items|)
      ensures active ==> Entries == EntryLabels(items, CurIndex)
      ensures !active ==> Entries == old(Entries)
    {
      CurIndex := CurIndex + if up then 1 else -1;
      if CurIndex < 0 {
        CurIndex := |items| - 1;
      } else if CurIndex >= |items| {
        CurIndex := 0;
      }
      Refresh(items);
    }
  }
}
