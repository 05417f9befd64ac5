/**
 * `clean_json_string` (app.py): the extractor's reply is meant to be raw JSON,
 * but language models often wrap it in a Markdown code fence. The function
 * deletes the fences, tagged ("```json") in preference to bare ("```"), then
 * trims surrounding whitespace, before the text is handed to the JSON parser.
 */
module CleanJson {
  import opened PyStr

  /** The bare Markdown code fence. */
  const Fence: string := "```"

  /** The opening fence of a JSON code block. */
  const TaggedFence: string := "```json"

  /** app.py `clean_json_string`. */
  function CleanJsonString(s: string): (r: string)
    ensures |r| <= |s|
    ensures r == [] || (!IsWhitespace(r[0]) && !IsWhitespace(r[|r| - 1]))
  {
    var unfenced :=
      if Contains(s, TaggedFence) then DeleteAll(DeleteAll(s, TaggedFence), Fence)
      else if Contains(s, Fence) then DeleteAll(s, Fence)
      else s;
    assert |unfenced| <= |s|;
    Strip(unfenced)
  }

  // ---------------------------------------------------------------------------
  // Deleting "```" leaves no "```"
  // ---------------------------------------------------------------------------

  lemma TaggedFenceExtendsFence()
    ensures TaggedFence == Fence + "json"
  {
  }

  /** A string that does not start with a backtick keeps its first character. */
  lemma FirstCharKept(s: string)
    requires s != [] && s[0] != '`'
    ensures DeleteAll(s, Fence) != [] && DeleteAll(s, Fence)[0] == s[0]
  {
    assert Fence[0] == '`';
  }

  /** A backtick that is not the start of a fence is never followed, once the
      fences behind it are deleted, by two more backticks: the fence would then
      have started at that backtick. */
  lemma KeptTickNotFollowedByTicks(s: string)
    requires s != [] && s[0] == '`' && !(Fence <= s)
    ensures var t := DeleteAll(s[1..], Fence); !(|t| >= 2 && t[0] == '`' && t[1] == '`')
  {
    var u := s[1..];
    if |u| >= 2 && u[0] == '`' {
      assert s[..3] == [s[0], u[0], u[1]];
      assert u[1] != '`';
      assert !(Fence <= u);
      FirstCharKept(u[1..]);
    } else if |u| > 0 && u[0] != '`' {
      FirstCharKept(u);
    }
  }

  /** `replace("```", "")` leaves no "```" behind, even where deleting a fence
      brings backticks from both sides of it together. */
  lemma {:induction false} DeleteFenceLeavesNoFence(s: string)
    ensures !Contains(DeleteAll(s, Fence), Fence)
    decreases |s|
  {
    if |s| == 0 {
    } else if Fence <= s {
      DeleteFenceLeavesNoFence(s[3..]);
    } else {
      var t := DeleteAll(s[1..], Fence);
      var r := DeleteAll(s, Fence);
      DeleteFenceLeavesNoFence(s[1..]);
      assert r == [s[0]] + t;
      assert r[1..] == t;
      if Fence <= r {
        assert r[0] == '`' && r[1] == '`' && r[2] == '`';
        assert t[0] == '`' && t[1] == '`';
        KeptTickNotFollowedByTicks(s);
        assert false;
      }
    }
  }

  /** A string free of "```" is free of "```json". */
  lemma NoFenceNoTaggedFence(s: string)
    requires !Contains(s, Fence)
    ensures !Contains(s, TaggedFence)
  {
    TaggedFenceExtendsFence();
    if Contains(s, TaggedFence) {
      ContainsExtension(s, Fence, "json");
    }
  }

  // ---------------------------------------------------------------------------
  // Properties of clean_json_string
  // ---------------------------------------------------------------------------

  /** When the reply holds a tagged fence, no fence of either kind is left in
      the result. Deleting "```json" alone can form a new "```json" (from
      "```j```jsonson"); the "```" pass then deletes its backticks, but the
      letters "json" it was made of stay ("```j```jsonson" cleans to "json"). */
  lemma CleanRemovesTaggedFences(s: string)
    requires Contains(s, TaggedFence)
    ensures var r := CleanJsonString(s); !Contains(r, Fence) && !Contains(r, TaggedFence)
  {
    var x := DeleteAll(DeleteAll(s, TaggedFence), Fence);
    DeleteFenceLeavesNoFence(DeleteAll(s, TaggedFence));
    StripKeepsAbsence(x, Fence);
    NoFenceNoTaggedFence(Strip(x));
  }

  /** When the reply holds a bare fence but no tagged one, every fence is deleted
      and nothing else is removed before trimming. */
  lemma CleanRemovesBareFences(s: string)
    requires Contains(s, Fence) && !Contains(s, TaggedFence)
    ensures CleanJsonString(s) == Strip(DeleteAll(s, Fence))
    ensures !Contains(CleanJsonString(s), Fence)
  {
    DeleteFenceLeavesNoFence(s);
    StripKeepsAbsence(DeleteAll(s, Fence), Fence);
  }

  /** A reply without any fence is only trimmed. */
  lemma CleanWithoutFenceOnlyStrips(s: string)
    requires !Contains(s, Fence)
    ensures CleanJsonString(s) == Strip(s)
  {
    NoFenceNoTaggedFence(s);
  }

  /** Whatever the reply, the result holds no fence. */
  lemma CleanLeavesNoFence(s: string)
    ensures !Contains(CleanJsonString(s), Fence)
  {
    if Contains(s, TaggedFence) {
      CleanRemovesTaggedFences(s);
    } else if Contains(s, Fence) {
      CleanRemovesBareFences(s);
    } else {
      StripKeepsAbsence(s, Fence);
    }
  }

  /** The function only deletes characters: its result is a subsequence of the reply. */
  lemma CleanOnlyDeletes(s: string)
    ensures IsSubsequence(CleanJsonString(s), s)
    ensures |CleanJsonString(s)| <= |s|
  {
    var r := CleanJsonString(s);
    if Contains(s, TaggedFence) {
      var x1 := DeleteAll(s, TaggedFence);
      var x2 := DeleteAll(x1, Fence);
      DeleteAllIsSubsequence(s, TaggedFence);
      DeleteAllIsSubsequence(x1, Fence);
      StripIsSubsequence(x2);
      SubsequenceTransitive(x2, x1, s);
      SubsequenceTransitive(r, x2, s);
    } else if Contains(s, Fence) {
      var x := DeleteAll(s, Fence);
      DeleteAllIsSubsequence(s, Fence);
      StripIsSubsequence(x);
      SubsequenceTransitive(r, x, s);
    } else {
      StripIsSubsequence(s);
    }
    SubsequenceLength(r, s);
  }

  /** Cleaning a cleaned reply changes nothing. */
  lemma CleanIdempotent(s: string)
    ensures CleanJsonString(CleanJsonString(s)) == CleanJsonString(s)
  {
    var r := CleanJsonString(s);
    CleanLeavesNoFence(s);
    CleanWithoutFenceOnlyStrips(r);
    StripFixesTrimmed(r);
  }
}
