/** The pure helpers behind one project card: the team lead's initials, the
    tag row with its overflow badge, and the status badge variant. */
module ProjectCard {
  import opened Records
  import opened Strings

  // ---------------------------------------------------------------------
  // Initials: `name.split(' ').map(n => n[0]).join('').toUpperCase()`

  /** `n[0]` as a string: an empty piece gives `undefined`, which `join`
      writes as the empty string. */
  function FirstChars(pieces: seq<string>): (r: seq<string>)
    ensures |r| == |pieces|
    decreases |pieces|
  {
    if pieces == [] then []
    else [if pieces[0] == [] then [] else [pieces[0][0]]] + FirstChars(pieces[1..])
  }

  function GetInitials(name: string): string
  {
    ToUpper(Join(FirstChars(Split(name, ' ')), []))
  }

  /** The non-empty pieces, in order: the words of the name. */
  function NonEmpty(pieces: seq<string>): (r: seq<string>)
    ensures |r| <= |pieces|
    ensures forall k :: 0 <= k < |r| ==> r[k] != []
    decreases |pieces|
  {
    if pieces == [] then []
    else if pieces[0] == [] then NonEmpty(pieces[1..])
    else [pieces[0]] + NonEmpty(pieces[1..])
  }

  function Words(name: string): seq<string>
  {
    NonEmpty(Split(name, ' '))
  }

  lemma JoinEmptySeparator(pieces: seq<string>)
    requires pieces != []
    ensures Join(pieces, []) == pieces[0] + Join(pieces[1..], [])
  {
  }

  /** Concatenating the first characters yields exactly one character per
      non-empty piece: that piece's first character, in order. */
  lemma {:induction false} JoinedFirstChars(pieces: seq<string>)
    ensures var j := Join(FirstChars(pieces), []);
            |j| == |NonEmpty(pieces)|
            && forall k :: 0 <= k < |j| ==> j[k] == NonEmpty(pieces)[k][0]
    decreases |pieces|
  {
    if pieces != [] {
      JoinedFirstChars(pieces[1..]);
      var fc := FirstChars(pieces);
      assert fc[1..] == FirstChars(pieces[1..]);
      JoinEmptySeparator(fc);
      var tail := Join(FirstChars(pieces[1..]), []);
      var ne := NonEmpty(pieces[1..]);
      if pieces[0] != [] {
        var j := [pieces[0][0]] + tail;
        assert Join(fc, []) == j;
        assert NonEmpty(pieces) == [pieces[0]] + ne;
        forall k | 0 <= k < |j| ensures j[k] == NonEmpty(pieces)[k][0] {
          if k > 0 { assert j[k] == tail[k - 1] && NonEmpty(pieces)[k] == ne[k - 1]; }
        }
      } else {
        assert Join(fc, []) == tail;
      }
    }
  }

  /** `getInitials` gives one upper-case character per word of the name
      (the upper-cased first character of that word), so never more
      characters than there are space-separated pieces, and "" for "". */
  lemma InitialsAreWordHeads(name: string)
    ensures var r := GetInitials(name);
            |r| == |Words(name)| <= |Split(name, ' ')|
            && (forall k :: 0 <= k < |r| ==> r[k] == UpperChar(Words(name)[k][0]) && !IsLowerAscii(r[k]))
    ensures name == "" ==> GetInitials(name) == ""
  {
    JoinedFirstChars(Split(name, ' '));
  }

  /** A name without spaces is a single word. */
  lemma InitialsOfOneWord(name: string)
    requires name != [] && ' ' !in name
    ensures GetInitials(name) == [UpperChar(name[0])]
  {
    SplitJoin(name, ' ');
    var pieces := Split(name, ' ');
    assert |pieces| == 1 by {
      assert CountChar(name, ' ') == 0 by { NoSeparatorNoCount(name, ' '); }
    }
    assert Join(pieces, [' ']) == pieces[0] == name;
    assert NonEmpty(pieces) == [name];
    InitialsAreWordHeads(name);
  }

  lemma {:induction false} NoSeparatorNoCount(s: string, c: char)
    requires c !in s
    ensures CountChar(s, c) == 0
    decreases |s|
  {
    if s != [] {
      assert s[0] != c;
      assert forall x :: x in s[1..] ==> x in s;
      NoSeparatorNoCount(s[1..], c);
    }
  }

  // ---------------------------------------------------------------------
  // Tags: `tags.slice(0, 3)` and, when there are more, a `+N` badge

  const MaxShownTags := 3

  /** The tags shown as badges: the first three, in order. */
  function ShownTags(tags: seq<string>): (r: seq<string>)
    ensures r <= tags
    ensures |r| == if |tags| <= MaxShownTags then |tags| else MaxShownTags
  {
    if |tags| <= MaxShownTags then tags else tags[..MaxShownTags]
  }

  /** The number on the overflow badge, when there is one. */
  function OverflowCount(tags: seq<string>): (r: Option<nat>)
    ensures r.Some? <==> |tags| > MaxShownTags
    ensures r.Some? ==> |ShownTags(tags)| + r.value == |tags|
  {
    if |tags| > MaxShownTags then Some(|tags| - MaxShownTags) else None
  }

  /** The overflow badge appears exactly when tags are hidden, and the
      shown badges plus its number account for every tag. */
  lemma TagsAccountedFor(tags: seq<string>)
    ensures OverflowCount(tags).Some? <==> ShownTags(tags) != tags
    ensures |ShownTags(tags)| + (if OverflowCount(tags).Some? then OverflowCount(tags).value else 0) == |tags|
    ensures OverflowCount(tags).Some? ==> OverflowCount(tags).value > 0
  {
  }

  // ---------------------------------------------------------------------
  // Status badge

  datatype BadgeVariant = Default | Secondary | Outline

  function StatusBadge(status: string): (v: BadgeVariant)
    ensures v == Default <==> status == "Completed"
    ensures v == Secondary <==> status == "Active"
  {
    if status == "Completed" then Default
    else if status == "Active" then Secondary
    else Outline
  }
}
