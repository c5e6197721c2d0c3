/** Naming of uploaded files and classification of their MIME type. Both upload
    paths (the post media and the profile image) build the stored name the same
    way: the upload's ISO-8601 timestamp with its separators removed, followed by
    the extension of the client's file name. */
module Uploads {
  import opened Common
  import Models

  /** A file received with the request: the client's file name and MIME type. */
  datatype Upload = Upload(originalName: string, mimeType: string)

  /** The characters `/[-T:.Z]/g` removes from the timestamp. */
  predicate IsSeparator(c: char)
  {
    c == '-' || c == 'T' || c == ':' || c == '.' || c == 'Z'
  }

  /** `iso.replace(/[-T:.Z]/g, '')`. */
  function StripSeparators(iso: string): (r: string)
    ensures |r| <= |iso|
    ensures forall c :: c in r <==> c in iso && !IsSeparator(c)
  {
    Filter(iso, c => !IsSeparator(c))
  }

  predicate IsDigit(c: char)
  {
    '0' <= c <= '9'
  }

  /** The shape `Date.prototype.toISOString` produces for years 0 to 9999:
      `YYYY-MM-DDTHH:mm:ss.sssZ`. */
  predicate IsIsoStamp(s: string)
  {
    && |s| == 24
    && s[4] == '-' && s[7] == '-' && s[10] == 'T' && s[13] == ':' && s[16] == ':' && s[19] == '.' && s[23] == 'Z'
    && AllDigits(s[..4]) && AllDigits(s[5..7]) && AllDigits(s[8..10]) && AllDigits(s[11..13])
    && AllDigits(s[14..16]) && AllDigits(s[17..19]) && AllDigits(s[20..23])
  }

  predicate AllDigits(s: string)
  {
    forall i :: 0 <= i < |s| ==> IsDigit(s[i])
  }

  /** Stripping a digit run leaves it whole. */
  lemma DigitsSurvive(s: string)
    requires AllDigits(s)
    ensures StripSeparators(s) == s
  {
    FilterKeepsAll(s, c => !IsSeparator(c));
  }

  /** Stripping `run + [sep] + rest` drops the separator and keeps the run. */
  lemma StripStep(run: string, sep: char, rest: string)
    requires AllDigits(run) && IsSeparator(sep)
    ensures StripSeparators(run + [sep] + rest) == run + StripSeparators(rest)
  {
    var keep := c => !IsSeparator(c);
    FilterAppend(run + [sep], rest, keep);
    FilterAppend(run, [sep], keep);
    DigitsSurvive(run);
  }

  /** For a well-formed timestamp the stripped form is exactly its seventeen
      digits, year first and milliseconds last. */
  lemma {:induction false} IsoStampDigits(s: string)
    requires IsIsoStamp(s)
    ensures StripSeparators(s) == s[..4] + s[5..7] + s[8..10] + s[11..13] + s[14..16] + s[17..19] + s[20..23]
    ensures |StripSeparators(s)| == 17 && AllDigits(StripSeparators(s))
  {
    StripHead(s);
    StripTail(s);
    var date, time := s[..4] + s[5..7] + s[8..10], s[11..13] + s[14..16] + s[17..19] + s[20..23];
    assert AllDigits(date) by { DigitsJoin(s[..4], s[5..7], s[8..10], []); }
    assert date + time == s[..4] + s[5..7] + s[8..10] + s[11..13] + s[14..16] + s[17..19] + s[20..23];
  }

  /** The date half of `IsoStampDigits`, up to the `T`. */
  lemma StripHead(s: string)
    requires IsIsoStamp(s)
    ensures StripSeparators(s) == s[..4] + s[5..7] + s[8..10] + StripSeparators(s[11..])
  {
    var year, month, day := s[..4], s[5..7], s[8..10];
    var fromDay := s[8..];
    assert fromDay == day + [s[10]] + s[11..];
    StripStep(day, s[10], s[11..]);
    assert s == year + [s[4]] + (month + [s[7]] + fromDay);
    StripTwoRuns(year, s[4], month, s[7], fromDay);
  }

  /** The time-of-day half of `IsoStampDigits`, from the hour on. */
  lemma StripTail(s: string)
    requires IsIsoStamp(s)
    ensures StripSeparators(s[11..]) == s[11..13] + s[14..16] + s[17..19] + s[20..23]
    ensures AllDigits(s[11..13] + s[14..16] + s[17..19] + s[20..23])
  {
    var hh, mm, ss, ms := s[11..13], s[14..16], s[17..19], s[20..23];
    var fromSs := s[17..];
    assert fromSs == ss + [s[19]] + (ms + [s[23]] + []);
    StripTwoRuns(ss, s[19], ms, s[23], []);
    assert s[11..] == hh + [s[13]] + (mm + [s[16]] + fromSs);
    StripTwoRuns(hh, s[13], mm, s[16], fromSs);
    DigitsJoin(hh, mm, ss, ms);
  }

  /** Two digit runs, each closed by a separator, strip to the two runs. */
  lemma StripTwoRuns(a: string, x: char, b: string, y: char, rest: string)
    requires AllDigits(a) && AllDigits(b) && IsSeparator(x) && IsSeparator(y)
    ensures StripSeparators(a + [x] + (b + [y] + rest)) == a + (b + StripSeparators(rest))
  {
    StripStep(b, y, rest);
    StripStep(a, x, b + [y] + rest);
  }

  lemma DigitsJoin(a: string, b: string, c: string, d: string)
    requires AllDigits(a) && AllDigits(b) && AllDigits(c) && AllDigits(d)
    ensures AllDigits(a + b + c + d)
  {
  }

  /** Index of the last '.' in `name`, if there is one. */
  function LastDot(name: string): (r: Option<nat>)
    ensures r.Some? ==> r.value < |name| && name[r.value] == '.' && '.' !in name[r.value + 1..]
    ensures r.None? <==> '.' !in name
  {
    if name == [] then None
    else if name[|name| - 1] == '.' then Some(|name| - 1)
    else
      assert name == name[..|name| - 1] + [name[|name| - 1]];
      LastDot(name[..|name| - 1])
  }

  /** `path.extname(name)` for a base name (the upload layer strips directories):
      the text from the last '.' to the end, unless there is no '.', the last '.'
      starts the name, or the name is `..`. */
  function Extname(name: string): (ext: string)
    ensures |ext| <= |name| && ext == name[|name| - |ext|..]
    ensures ext != [] ==> ext[0] == '.' && '.' !in ext[1..]
    ensures ext == [] <==> '.' !in name || name == ".." || (name[0] == '.' && '.' !in name[1..])
  {
    match LastDot(name)
    case None => []
    case Some(i) =>
      if i == 0 || name == ".." then []
      else
        assert '.' in name[1..] by { assert name[1..][i - 1] == '.'; }
        name[i..]
  }

  /** The stored file name: `${uniqueSuffix}${fileExtension}`. */
  function StoredName(iso: string, originalName: string): (stored: string)
    ensures |Extname(originalName)| <= |stored|
    ensures stored[|stored| - |Extname(originalName)|..] == Extname(originalName)
    ensures forall k :: 0 <= k < |stored| - |Extname(originalName)| ==> !IsSeparator(stored[k])
  {
    StripSeparators(iso) + Extname(originalName)
  }

  /** The stored name of the upload that came with the request, if one did. */
  function UploadName(file: Option<Upload>, iso: string): (name: Option<string>)
    ensures name.Some? <==> file.Some?
    ensures file.Some? ==> name.value == StoredName(iso, file.value.originalName)
  {
    match file
    case None => None
    case Some(f) => Some(StoredName(iso, f.originalName))
  }

  /** A stored name splits back into the seventeen timestamp digits and the
      original extension. */
  lemma StoredNameParts(iso: string, originalName: string)
    requires IsIsoStamp(iso)
    ensures var stored := StoredName(iso, originalName);
      |stored| == 17 + |Extname(originalName)|
      && AllDigits(stored[..17])
      && stored[..17] == StripSeparators(iso)
      && stored[17..] == Extname(originalName)
  {
    IsoStampDigits(iso);
  }

  /** `mimetype.startsWith('image') ? 'image' : 'video'`. */
  function MediaTypeOf(mimeType: string): (t: Models.MediaType)
    ensures t == Models.Image <==> |mimeType| >= 5 && mimeType[..5] == "image"
  {
    if "image" <= mimeType then Models.Image else Models.Video
  }
}
