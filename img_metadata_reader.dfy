/**
 * Reading an image's existing caption (`img_metadata_reader.py`): the IPTC
 * caption/abstract when there is one, otherwise the `x-default` entry of the XMP
 * description that `exiftool -b -XMP` prints.
 *
 * The two foreign readers are represented by what they return: the IPTC container read
 * (or its failure) and the text exiftool printed (or the exception starting it raised).
 */
module MetadataReader {
  import opened Wrappers
  import opened Text

  // ---------------------------------------------------------------- the XMP pattern

  const OpenTag := "<rdf:li"
  const Closer := "</rdf:li>"

  predicate IsQuote(c: char) {
    c == '\'' || c == '"'
  }

  /** `xml:lang=['"]x-default['"]>`: 21 characters, either quote on either side. */
  predicate LangAttr(t: string) {
    && |t| == 21
    && t[..9] == "xml:lang="
    && IsQuote(t[9])
    && t[10..19] == "x-default"
    && IsQuote(t[19])
    && t[20] == '>'
  }

  /**
   * The opening part of the pattern, `<rdf:li\s+xml:lang=['"]x-default['"]>`, matches
   * `s` from index `k` up to index `e`.
   */
  ghost predicate OpensAt(s: string, k: int, e: int) {
    && OccursAt(s, OpenTag, k)
    && exists j :: k + 7 < j && j + 21 == e <= |s| && SpaceRun(s, k + 7, j) && LangAttr(s[j..e])
  }

  /**
   * The whole pattern matches from `k`: the opening part ends at `e`, and the lazy group
   * `(.*?)` (which under DOTALL crosses line breaks) stops at the first `</rdf:li>` at or
   * after `e`, found at `c`.
   */
  ghost predicate MatchAt(s: string, k: int, e: int, c: int) {
    && OpensAt(s, k, e)
    && e <= c
    && OccursAt(s, Closer, c)
    && forall c' :: e <= c' < c ==> !OccursAt(s, Closer, c')
  }

  /** `re.search` reports the match that starts leftmost. */
  ghost predicate LeftmostMatch(s: string, k: int, e: int, c: int) {
    && MatchAt(s, k, e, c)
    && forall k', e', c' :: k' < k ==> !MatchAt(s, k', e', c')
  }

  /** Where the opening part ends when it matches at `k`; `\s+` takes the whole run of whitespace. */
  function OpenerEnd(s: string, k: nat): (r: Option<nat>)
    ensures r.Some? ==> OpensAt(s, k, r.value)
  {
    if !OccursAt(s, OpenTag, k) then None
    else
      var rest := s[k + 7..];
      var n := LeadingSpaces(rest);
      var j := k + 7 + n;
      if n == 0 || j + 21 > |s| || !LangAttr(s[j..j + 21]) then None
      else
        assert SpaceRun(s, k + 7, j) by {
          assert forall i :: 0 <= i < |rest| ==> rest[i] == s[k + 7 + i];
        }
        Some(j + 21)
  }

  /** The opening part can end in only one place, and `OpenerEnd` finds it. */
  lemma OpenerEndComplete(s: string, k: nat, e: int)
    requires OpensAt(s, k, e)
    ensures OpenerEnd(s, k) == Some(e)
  {
    var j' :| k + 7 < j' && j' + 21 == e <= |s| && SpaceRun(s, k + 7, j') && LangAttr(s[j'..e]);
    var rest := s[k + 7..];
    var n := LeadingSpaces(rest);
    var j := k + 7 + n;
    assert forall i :: 0 <= i < |rest| ==> rest[i] == s[k + 7 + i];
    assert s[j'] == s[j'..e][0] == 'x';
    assert j' >= j;
    assert j < |s| && !IsSpace(s[j]);
    assert j == j';
  }

  /** `re.search` from index `from` on: the leftmost start with a complete match. */
  function SearchFrom(s: string, from: nat): (r: Option<(nat, nat, nat)>)
    ensures r.Some? ==> from <= r.value.0 && MatchAt(s, r.value.0, r.value.1, r.value.2)
    ensures r.Some? ==> forall k, e, c :: from <= k < r.value.0 ==> !MatchAt(s, k, e, c)
    ensures r.None? ==> forall k, e, c :: from <= k ==> !MatchAt(s, k, e, c)
    decreases |s| - from
  {
    assert forall e :: OpensAt(s, from, e) ==> OpenerEnd(s, from) == Some(e) by {
      forall e | OpensAt(s, from, e) ensures OpenerEnd(s, from) == Some(e) {
        OpenerEndComplete(s, from, e);
      }
    }
    assert forall k, e, c :: from <= k && MatchAt(s, k, e, c) ==> k < |s|;
    if from >= |s| then None
    else
      var here := match OpenerEnd(s, from)
        case None => None
        case Some(e) =>
          match IndexOf(s, Closer, e)
          case None => None
          case Some(c) => Some((from, e, c));
      if here.Some? then here else SearchFrom(s, from + 1)
  }

  /**
   * The `x-default` text inside exiftool's output: the output is stripped, searched for
   * the pattern, and the captured group is stripped again. `None` when nothing matches.
   */
  function ExtractXmp(out: string): (r: Option<string>)
    ensures r.Some? ==> !Contains(r.value, Closer) && NoEdgeSpace(r.value)
  {
    var xmp := Strip(out);
    match SearchFrom(xmp, 0)
    case None => None
    case Some((k, e, c)) =>
      var t := Strip(xmp[e..c]);
      assert !Contains(t, Closer) by {
        NoCloserInContent(xmp, k, e, c);
        StrippedKeepsAbsence(xmp[e..c], Closer);
      }
      StripIdempotent(xmp[e..c]);
      StripNoEdge(t);
      Some(t)
  }

  /** The lazy group never contains the closing tag. */
  lemma NoCloserInContent(s: string, k: nat, e: nat, c: nat)
    requires MatchAt(s, k, e, c)
    ensures !Contains(s[e..c], Closer)
  {
    var t := s[e..c];
    assert forall i :: 0 <= i < |t| ==> t[i] == s[e + i];
    forall p | 0 <= p <= |t| - |Closer| && OccursAt(t, Closer, p) ensures false {
      assert s[e + p..e + p + |Closer|] == t[p..p + |Closer|];
      assert OccursAt(s, Closer, e + p) && e <= e + p < c;
    }
  }

  /**
   * The extraction finds exactly what the pattern describes: a result `t` comes from the
   * leftmost match of the stripped output, and it is that match's group, stripped.
   */
  lemma ExtractXmpCharacterised(out: string, t: string)
    ensures ExtractXmp(out) == Some(t) <==>
      exists k, e, c :: LeftmostMatch(Strip(out), k, e, c) && t == Strip(Strip(out)[e..c])
  {
    var s := Strip(out);
    if ExtractXmp(out) == Some(t) {
      var (k, e, c) := SearchFrom(s, 0).value;
      assert LeftmostMatch(s, k, e, c);
    }
    if exists k, e, c :: LeftmostMatch(s, k, e, c) && t == Strip(s[e..c]) {
      var k, e, c :| LeftmostMatch(s, k, e, c) && t == Strip(s[e..c]);
      LeftmostFound(s, k, e, c);
    }
  }

  /** The search reports the leftmost match, whole. */
  lemma LeftmostFound(s: string, k: int, e: int, c: int)
    requires LeftmostMatch(s, k, e, c)
    ensures SearchFrom(s, 0) == Some((k, e, c))
  {
    var r := SearchFrom(s, 0);
    assert r.Some?;
    var (k1, e1, c1) := r.value;
    assert k1 == k;
    OpenerEndComplete(s, k, e);
    OpenerEndComplete(s, k, e1);
    FirstCloserUnique(s, e, c, c1);
  }

  lemma FirstCloserUnique(s: string, e: int, c: int, c1: int)
    requires e <= c && OccursAt(s, Closer, c) && forall c' :: e <= c' < c ==> !OccursAt(s, Closer, c')
    requires e <= c1 && OccursAt(s, Closer, c1) && forall c' :: e <= c' < c1 ==> !OccursAt(s, Closer, c')
    ensures c == c1
  {
  }

  /** No match anywhere gives `None`. */
  lemma ExtractXmpNone(out: string)
    ensures ExtractXmp(out).None? <==> forall k, e, c :: !MatchAt(Strip(out), k, e, c)
  {
  }

  /** An XMP entry written the usual way, `<rdf:li xml:lang="x-default">t</rdf:li>`. */
  function DefaultEntry(t: string): string {
    OpenTag + " " + DefaultAttr + t + Closer
  }

  const DefaultAttr := "xml:lang=\"x-default\">"

  /** A caption with no `<` in it is read back from its entry, stripped. */
  lemma ExtractsDefaultEntry(t: string)
    requires forall i :: 0 <= i < |t| ==> t[i] != '<'
    ensures ExtractXmp(DefaultEntry(t)) == Some(Strip(t))
  {
    var s := DefaultEntry(t);
    var c := 29 + |t|;
    DefaultEntryShape(t);
    StripNoEdge(s);
    DefaultEntryOpens(t);
    DefaultEntryCloses(t);
    assert SearchFrom(s, 0) == Some((0, 29, c));
  }

  lemma DefaultEntryShape(t: string)
    ensures var s := DefaultEntry(t);
      && |s| == 38 + |t| && s[..7] == OpenTag && s[7] == ' ' && s[8..29] == DefaultAttr
      && s[29..29 + |t|] == t && s[29 + |t|..] == Closer && NoEdgeSpace(s)
  {
    var s := DefaultEntry(t);
    assert s == OpenTag + " " + DefaultAttr + t + Closer;
    assert s[0] == '<' && s[|s| - 1] == '>';
  }

  lemma DefaultEntryOpens(t: string)
    ensures OpenerEnd(DefaultEntry(t), 0) == Some(29)
  {
    var s := DefaultEntry(t);
    DefaultEntryShape(t);
    DefaultAttrMatches();
    var rest := s[7..];
    assert rest[0] == s[7] == ' ';
    assert rest[1] == s[8] == s[8..29][0] == DefaultAttr[0] == 'x';
    assert LeadingSpaces(rest) == 1;
    assert OccursAt(s, OpenTag, 0);
  }

  /** The attribute as usually written is one of the forms the pattern accepts. */
  lemma DefaultAttrMatches()
    ensures LangAttr(DefaultAttr)
  {
    assert DefaultAttr[..9] == "xml:lang=" && DefaultAttr[10..19] == "x-default";
  }

  lemma DefaultEntryCloses(t: string)
    requires forall i :: 0 <= i < |t| ==> t[i] != '<'
    ensures IndexOf(DefaultEntry(t), Closer, 29) == Some(29 + |t|)
  {
    var s := DefaultEntry(t);
    var c := 29 + |t|;
    DefaultEntryShape(t);
    assert OccursAt(s, Closer, c);
    forall c' | 29 <= c' < c ensures !OccursAt(s, Closer, c') {
      assert s[c'] == s[29..29 + |t|][c' - 29] == t[c' - 29];
    }
    var r := IndexOf(s, Closer, 29);
    assert r.Some? && r.value <= c;
  }

  // ---------------------------------------------------------------- the readers

  /** Loading the IPTC container: it failed (any exception), or it gave a caption or none. */
  datatype IptcRead = IptcFailed | IptcLoaded(caption: Option<string>)

  /** `read_iptc_data`: the caption/abstract, or `None` when loading raised. */
  function ReadIptcData(read: IptcRead): (r: Option<string>)
    ensures read.IptcFailed? ==> r.None?
    ensures read.IptcLoaded? ==> r == read.caption
  {
    match read
    case IptcFailed => None
    case IptcLoaded(caption) => caption
  }

  /**
   * `read_xmp_data`: `run` is the text exiftool printed, or `None` when starting it or
   * decoding its output raised; both give `None`, as does output without a match.
   */
  function ReadXmpData(run: Option<string>): (r: Option<string>)
    ensures run.None? ==> r.None?
    ensures run.Some? ==> r == ExtractXmp(run.value)
  {
    match run
    case None => None
    case Some(out) => ExtractXmp(out)
  }

  /** `get_metadata`: `iptc or xmp`, both readers always being consulted. */
  function GetMetadata(iptc: IptcRead, exiftool: Option<string>): (r: Option<string>)
    ensures Truthy(ReadIptcData(iptc)) ==> r == ReadIptcData(iptc)
    ensures !Truthy(ReadIptcData(iptc)) ==> r == ReadXmpData(exiftool)
  {
    var fromIptc := ReadIptcData(iptc);
    var fromXmp := ReadXmpData(exiftool);
    if Truthy(fromIptc) then fromIptc else fromXmp
  }

  /**
   * The caption is usable exactly when one of the two sources gives a usable one, and it
   * never mixes them: it is one of the two answers.
   */
  lemma GetMetadataTruthy(iptc: IptcRead, exiftool: Option<string>)
    ensures Truthy(GetMetadata(iptc, exiftool)) <==> Truthy(ReadIptcData(iptc)) || Truthy(ReadXmpData(exiftool))
    ensures GetMetadata(iptc, exiftool) in {ReadIptcData(iptc), ReadXmpData(exiftool)}
  {
  }
}
