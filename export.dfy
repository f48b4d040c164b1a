/** The file name copy_image gives the exported image. */
module Export {
  import opened Wrappers
  import opened PyStr

  /** The name used when the capture time cannot be read. */
  const Fallback: string := "unnamed.jpg"

  /**
   * date_time_original.replace(':', '-').replace(' ', '-') + '.jpg': the
   * timestamp keeps its length and every character except ':' and ' ',
   * which become '-', and ".jpg" follows.
   */
  function TimestampName(ts: string): (name: string)
    ensures |name| == |ts| + 4
    ensures forall i :: 0 <= i < |ts| ==> name[i] == if ts[i] == ':' || ts[i] == ' ' then '-' else ts[i]
    ensures name[|ts|..] == ".jpg"
    ensures ':' !in name && ' ' !in name
  {
    DashedShape(ts);
    var name := Dashed(ts) + ".jpg";
    assert name[|ts|..] == ".jpg";
    assert forall i :: 0 <= i < |name| ==> name[i] != ':' && name[i] != ' ' by {
      forall i | 0 <= i < |name| ensures name[i] != ':' && name[i] != ' ' {
        if i >= |ts| { assert name[i] == ".jpg"[i - |ts|]; }
      }
    }
    name
  }

  /** The two replace calls: every ':' and then every ' ' becomes '-'. */
  function Dashed(ts: string): string
  {
    ReplaceChar(ReplaceChar(ts, ':', '-'), ' ', '-')
  }

  /** Position by position, the two replace calls turn ':' and ' ' into '-' and keep everything else. */
  lemma DashedShape(ts: string)
    ensures |Dashed(ts)| == |ts|
    ensures forall i :: 0 <= i < |ts| ==>
      Dashed(ts)[i] == if ts[i] == ':' || ts[i] == ' ' then '-' else ts[i]
  {
    var once := ReplaceChar(ts, ':', '-');
    forall i | 0 <= i < |ts|
      ensures Dashed(ts)[i] == if ts[i] == ':' || ts[i] == ' ' then '-' else ts[i]
    {
      ReplaceCharAt(ts, ':', '-', i);
      ReplaceCharAt(once, ' ', '-', i);
    }
  }

  /**
   * The name for the export, given the DateTimeOriginal tag (None when the
   * image has no EXIF block, lacks the tag or the tag is not a string).
   */
  function ExportName(tag: Option<string>): (name: string)
    ensures tag.None? ==> name == Fallback
    ensures tag.Some? ==> |name| == |tag.value| + 4
    ensures EndsWith(name, ".jpg")
    ensures ':' !in name && ' ' !in name
  {
    match tag
    case None => Fallback
    case Some(ts) => TimestampName(ts)
  }

  /**
   * "2024:01:02 03:04:05" is exported as "2024-01-02-03-04-05.jpg", read off
   * TimestampName's contract position by position. The timestamp is a
   * parameter pinned by the requires: with the literal in the ensures the
   * verifier unfolds the replace calls on it and runs out of resource.
   */
  lemma TimestampNameExample(ts: string)
    requires ts == "2024:01:02 03:04:05"
    ensures TimestampName(ts) == "2024-01-02-03-04-05.jpg"
  {
    var name := TimestampName(ts);
    var expected := "2024-01-02-03-04-05.jpg";
    forall i | 0 <= i < |name| ensures name[i] == expected[i] {
      if i >= |ts| {
        assert name[i] == ".jpg"[i - |ts|];
      }
    }
  }

  predicate IsDigit(c: char)
  {
    '0' <= c <= '9'
  }

  /** The separator positions of the EXIF DateTimeOriginal form "YYYY:MM:DD HH:MM:SS". */
  function SeparatorAt(i: int): Option<char>
  {
    if i == 4 || i == 7 || i == 13 || i == 16 then Some(':')
    else if i == 10 then Some(' ')
    else None
  }

  /** A DateTimeOriginal value as the EXIF standard writes it: 19 characters, digits between the separators. */
  predicate ExifDateTime(ts: string)
  {
    |ts| == 19 &&
    forall i :: 0 <= i < 19 ==> if SeparatorAt(i).Some? then ts[i] == SeparatorAt(i).value else IsDigit(ts[i])
  }

  /** Reads the timestamp back from an export name: puts the separators back and drops ".jpg". */
  function TimestampOf(name: string): (ts: string)
    requires |name| == 23
    ensures |ts| == 19
  {
    seq(19, i requires 0 <= i < 19 => if SeparatorAt(i).Some? then SeparatorAt(i).value else name[i])
  }

  /** For a well-formed capture time the export name loses nothing. */
  lemma TimestampRoundTrip(ts: string)
    requires ExifDateTime(ts)
    ensures |TimestampName(ts)| == 23 && TimestampOf(TimestampName(ts)) == ts
  {
    var back := TimestampOf(TimestampName(ts));
    forall i | 0 <= i < 19 ensures back[i] == ts[i] {
    }
  }

  /** Two images taken at different (well-formed) times are never exported under the same name. */
  lemma TimestampNameInjective(a: string, b: string)
    requires ExifDateTime(a) && ExifDateTime(b)
    requires TimestampName(a) == TimestampName(b)
    ensures a == b
  {
    TimestampRoundTrip(a);
    TimestampRoundTrip(b);
  }
}
