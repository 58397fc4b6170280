/** The read-ID input window (IDInputWindow in idInputWindow.py): a text
    box whose lines are the read IDs to filter for. get_ids strips the
    text, splits it into lines as str.splitlines does and strips every
    line; loading a file replaces the box, asking first when the box holds
    anything but whitespace. */
module IdInput {
  import opened Util
  import opened Text

  /** The line boundaries of str.splitlines: \n, \r, \v, \f, the file,
      group and record separators, NEL and the line and paragraph
      separators (\r\n counts as one boundary). */
  predicate IsLineBreak(c: char)
  {
    || c == '\n' || c == '\r' || c == '\U{000B}' || c == '\U{000C}'
    || c == '\U{001C}' || c == '\U{001D}' || c == '\U{001E}' || c == '\U{0085}'
    || c == '\U{2028}' || c == '\U{2029}'
  }

  /** Every line boundary is whitespace, so strip removes boundaries at
      either end. */
  lemma LineBreakIsSpace(c: char)
    requires IsLineBreak(c)
    ensures IsSpace(c)
  {
  }

  predicate NoLineBreak(s: string)
  {
    forall k :: 0 <= k < |s| ==> !IsLineBreak(s[k])
  }

  /** The index of the first line boundary in s, or |s| when there is none. */
  function FirstBreak(s: string): (r: nat)
    ensures r <= |s| && NoLineBreak(s[..r])
    ensures r < |s| ==> IsLineBreak(s[r])
  {
    if |s| == 0 then 0
    else if IsLineBreak(s[0]) then 0
    else
      var r := FirstBreak(s[1..]);
      assert s[..r + 1] == [s[0]] + s[1..][..r];
      r + 1
  }

  /** str.splitlines(): the text between line boundaries; a final boundary
      does not start an empty line. */
  function SplitLines(s: string): (r: seq<string>)
    ensures |r| == 0 <==> |s| == 0
    ensures forall i :: 0 <= i < |r| ==> NoLineBreak(r[i])
    decreases |s|
  {
    if |s| == 0 then []
    else
      var i := FirstBreak(s);
      if i == |s| then [s]
      else
        var next := if s[i] == '\r' && i + 1 < |s| && s[i + 1] == '\n' then i + 2 else i + 1;
        [s[..i]] + SplitLines(s[next..])
  }

  /** get_ids on the box's text: the stripped lines of the stripped text,
      or None when there are none. */
  function ParseIds(text: string): (r: Option<seq<string>>)
    ensures r.Some? ==> |r.value| >= 1
  {
    var ids := StripLines(SplitLines(Strip(text)));
    if |ids| < 1 then None else Some(ids)
  }

  /** [id_.strip() for id_ in lines] */
  function StripLines(lines: seq<string>): (r: seq<string>)
    ensures |r| == |lines|
    ensures forall i :: 0 <= i < |r| ==> r[i] == Strip(lines[i])
  {
    seq(|lines|, i requires 0 <= i < |lines| => Strip(lines[i]))
  }

  /** get_ids returns None exactly when the text is empty or whitespace
      only. */
  lemma ParseIdsNone(text: string)
    ensures ParseIds(text) == None <==> forall k :: 0 <= k < |text| ==> IsSpace(text[k])
  {
    StripSlice(text);
  }

  /** A string that neither starts nor ends with whitespace and holds no
      line boundary. */
  predicate CleanLine(s: string)
  {
    NoLineBreak(s) && Strip(s) == s
  }

  /** The IDs written one per line come back from get_ids: every ID that
      is stripped and has no line boundary, with non-empty first and last
      lines. Blank lines between IDs come back as "". */
  lemma {:induction false} ParseIdsRoundTrip(ids: seq<string>)
    requires |ids| >= 1 && |ids[0]| > 0 && |ids[|ids| - 1]| > 0
    requires forall i :: 0 <= i < |ids| ==> CleanLine(ids[i])
    ensures ParseIds(Join(ids, "\n")) == Some(ids)
  {
    var s := Join(ids, "\n");
    JoinedIsStripped(ids);
    forall i | 0 <= i < |ids|
      ensures NoLineBreak(ids[i])
    {
      assert CleanLine(ids[i]);
    }
    SplitJoin(ids);
    StripLinesClean(ids);
  }

  /** Clean lines with non-empty ends join to a stripped string. */
  lemma JoinedIsStripped(ids: seq<string>)
    requires |ids| >= 1 && |ids[0]| > 0 && |ids[|ids| - 1]| > 0
    requires CleanLine(ids[0]) && CleanLine(ids[|ids| - 1])
    ensures Strip(Join(ids, "\n")) == Join(ids, "\n")
  {
    JoinFirst(ids);
    JoinLast(ids);
    CleanLineEnds(ids[0]);
    CleanLineEnds(ids[|ids| - 1]);
    StripKeeps(Join(ids, "\n"));
  }

  /** Stripping clean lines leaves them as they are. */
  lemma StripLinesClean(ids: seq<string>)
    requires forall i :: 0 <= i < |ids| ==> CleanLine(ids[i])
    ensures StripLines(ids) == ids
  {
  }

  /** A clean non-empty line neither starts nor ends with whitespace. */
  lemma CleanLineEnds(x: string)
    requires CleanLine(x) && |x| > 0
    ensures !IsSpace(x[0]) && !IsSpace(x[|x| - 1])
  {
    StripSlice(x);
  }

  /** The first character of the joined lines is that of the first line. */
  lemma JoinFirst(ids: seq<string>)
    requires |ids| >= 1 && |ids[0]| > 0
    ensures |Join(ids, "\n")| > 0 && Join(ids, "\n")[0] == ids[0][0]
  {
  }

  /** The last character of the joined lines is that of the last line. */
  lemma {:induction false} JoinLast(ids: seq<string>)
    requires |ids| >= 1 && |ids[|ids| - 1]| > 0
    ensures |Join(ids, "\n")| > 0
    ensures Join(ids, "\n")[|Join(ids, "\n")| - 1] == ids[|ids| - 1][|ids[|ids| - 1]| - 1]
    decreases |ids|
  {
    if |ids| > 1 {
      JoinLast(ids[1..]);
    }
  }

  /** splitlines undoes joining with "\n" when no line holds a boundary and
      the last line is not empty. */
  lemma {:induction false} SplitJoin(ids: seq<string>)
    requires |ids| >= 1 && |ids[|ids| - 1]| > 0
    requires forall i :: 0 <= i < |ids| ==> NoLineBreak(ids[i])
    ensures SplitLines(Join(ids, "\n")) == ids
    decreases |ids|
  {
    var s := Join(ids, "\n");
    if |ids| == 1 {
      assert s == ids[0];
      assert FirstBreak(s) == |s|;
    } else {
      var head := ids[0];
      var rest := Join(ids[1..], "\n");
      assert s == head + "\n" + rest;
      var i := FirstBreak(s);
      assert s[|head|] == '\n';
      assert s[..|head|] == head;
      assert i == |head|;
      assert s[i + 1..] == rest;
      SplitJoin(ids[1..]);
      JoinNonEmpty(ids[1..]);
    }
  }

  /** Joined lines whose last line is not empty are not empty. */
  lemma {:induction false} JoinNonEmpty(ids: seq<string>)
    requires |ids| >= 1 && |ids[|ids| - 1]| > 0
    ensures |Join(ids, "\n")| > 0
    decreases |ids|
  {
    if |ids| > 1 {
      JoinNonEmpty(ids[1..]);
    }
  }

  /** An empty line between two IDs is kept as an empty entry. */
  lemma BlankLineKept(a: string, b: string)
    requires |a| > 0 && |b| > 0 && CleanLine(a) && CleanLine(b)
    ensures ParseIds(a + "\n\n" + b) == Some([a, "", b])
  {
    var ids := [a, "", b];
    assert Join(ids, "\n") == a + "\n\n" + b by {
      assert Join(ids[2..], "\n") == b;
      assert Join(ids[1..], "\n") == "" + "\n" + b;
    }
    assert CleanLine(ids[1]);
    ParseIdsRoundTrip(ids);
  }

  /** The outcome of the overwrite question in load_ids_from_file. */
  datatype Answer = Yes | No

  class IdInputWindow {
    /** The text box's plain text. */
    var text: string
    var closed: bool

    constructor ()
      ensures text == "" && !closed
    {
      text := "";
      closed := false;
    }

    /** get_ids: the parsed IDs; the window closes whatever the result. */
    method GetIds() returns (ids: Option<seq<string>>)
      modifies this`closed
      ensures ids == ParseIds(text) && closed
    {
      var t := Strip(text);
      var lines := SplitLines(t);
      var stripped: seq<string> := [];
      var i := 0;
      while i < |lines|
        invariant 0 <= i <= |lines| && |stripped| == i
        invariant forall k :: 0 <= k < i ==> stripped[k] == Strip(lines[k])
      {
        stripped := stripped + [Strip(lines[i])];
        i := i + 1;
      }
      assert stripped == StripLines(lines);
      closed := true;
      if |stripped| < 1 {
        ids := None;
      } else {
        ids := Some(stripped);
      }
    }

    /** clear_ids: an empty box. */
    method ClearIds()
      modifies this`text
      ensures text == ""
    {
      text := "";
    }

    /** The overwrite decision of load_ids_from_file once the file content
        is read: a box that strips to nothing is replaced without a
        question; otherwise the user is asked and only Yes replaces it. The
        answer is consulted only when the question is asked. */
    method LoadIds(content: string, answer: Answer) returns (asked: bool)
      modifies this`text
      ensures asked <==> Strip(old(text)) != ""
      ensures !asked ==> text == content
      ensures asked ==> text == (if answer == Yes then content else old(text))
    {
      if Strip(text) != "" {
        asked := true;
        if answer == Yes {
          text := content;
        }
      } else {
        asked := false;
        text := content;
      }
    }
  }

  /** Whether the question is asked depends only on whether the box holds
      anything but whitespace. */
  lemma AskedIffNotBlank(text: string)
    ensures Strip(text) != "" <==> exists k :: 0 <= k < |text| && !IsSpace(text[k])
  {
    StripSlice(text);
  }
}
