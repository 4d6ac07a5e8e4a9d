/** The certificate forms of both results pages: when the request is sent, what it carries,
    and the name of the downloaded file. */
module Certificate {
  import opened Wrappers
  import opened Seqs
  import opened Text

  /** The body of `POST /certificate/download`; `ResultsPage.js` sends no contact field. */
  datatype CertificateRequest = CertificateRequest(testId: string, name: string, email: Option<string>, contact: Option<string>)

  /** `ResultsPage.js`: a blank name stops the download; otherwise the name is sent trimmed and
      the email trimmed, or null when nothing but whitespace was typed. */
  function CompactRequest(testId: string, name: string, email: string): (r: Option<CertificateRequest>)
    ensures r.None? <==> AllWhitespace(name)
    ensures r.Some? ==>
      && r.value.testId == testId
      && r.value.name == Trim(name) && r.value.name != ""
      && !IsWhitespace(r.value.name[0]) && !IsWhitespace(r.value.name[|r.value.name| - 1])
      && (r.value.email.None? <==> AllWhitespace(email))
      && (r.value.email.Some? ==> r.value.email.value == Trim(email))
      && r.value.contact.None?
  {
    TrimEmptyIffBlank(name);
    TrimEmptyIffBlank(email);
    var trimmed := Trim(name);
    if trimmed == "" then None
    else
      var e := Trim(email);
      Some(CertificateRequest(testId, trimmed, if e == "" then None else Some(e), None))
  }

  /** Submitting the name the request carried sends the same name again. */
  lemma CompactRequestNameStable(testId: string, name: string, email: string)
    requires CompactRequest(testId, name, email).Some?
    ensures CompactRequest(testId, CompactRequest(testId, name, email).value.name, email) == CompactRequest(testId, name, email)
  {
    var sent := CompactRequest(testId, name, email).value.name;
    TrimIdempotent(name);
    TrimEmptyIffBlank(sent);
  }

  /** `ResultsPage.jsx`: a blank name stops the download; otherwise all three fields are sent
      as typed. */
  function FullRequest(testId: string, name: string, email: string, contact: string): (r: Option<CertificateRequest>)
    ensures r.None? <==> AllWhitespace(name)
    ensures r.Some? ==> r.value == CertificateRequest(testId, name, Some(email), Some(contact))
  {
    TrimEmptyIffBlank(name);
    if Trim(name) == "" then None
    else Some(CertificateRequest(testId, name, Some(email), Some(contact)))
  }

  /** The download button of `ResultsPage.jsx` is disabled while a download runs or the name
      is blank. */
  function DownloadDisabled(downloading: bool, name: string): (disabled: bool)
    ensures disabled <==> downloading || AllWhitespace(name)
  {
    TrimEmptyIffBlank(name);
    downloading || Trim(name) == ""
  }

  /** The button is enabled exactly when no download runs and the handler would send a request. */
  lemma ButtonGuardMatchesHandler(downloading: bool, testId: string, name: string, email: string, contact: string)
    ensures !DownloadDisabled(downloading, name) <==> !downloading && FullRequest(testId, name, email, contact).Some?
  {
  }

  /** Both pages refuse exactly the same names, and agree on a name that has no surrounding whitespace. */
  lemma PagesAgreeOnNames(testId: string, name: string, email: string, contact: string)
    ensures CompactRequest(testId, name, email).None? <==> FullRequest(testId, name, email, contact).None?
    ensures CompactRequest(testId, name, email).Some? && Trim(name) == name ==>
      CompactRequest(testId, name, email).value.name == FullRequest(testId, name, email, contact).value.name
  {
  }

  /** `name.replace(/\s+/g, "_")`: every run of whitespace becomes one underscore. */
  function CollapseWhitespace(s: string): (r: string)
    ensures |r| <= |s|
    ensures NoWhitespace(r)
    decreases |s|
  {
    if |s| == 0 then ""
    else if IsWhitespace(s[0]) then
      var rest := TrimStart(s);
      assert rest != s;
      "_" + CollapseWhitespace(rest)
    else [s[0]] + CollapseWhitespace(s[1..])
  }

  /** The characters a file name keeps from the name: neither whitespace nor underscores. */
  predicate Kept(c: char) {
    !IsWhitespace(c) && c != '_'
  }

  function Letters(s: string): string {
    Filter(s, Kept)
  }

  /** A name without whitespace is used unchanged. */
  lemma {:induction false} CollapseKeepsPlainNames(s: string)
    requires NoWhitespace(s)
    ensures CollapseWhitespace(s) == s
    decreases |s|
  {
    if |s| > 0 {
      CollapseKeepsPlainNames(s[1..]);
      assert s == [s[0]] + s[1..];
    }
  }

  /** Collapsing loses no visible character and reorders nothing: apart from whitespace and
      underscores, the file name spells the name. */
  lemma {:induction false} CollapseKeepsLetters(s: string)
    ensures Letters(CollapseWhitespace(s)) == Letters(s)
    decreases |s|
  {
    if |s| > 0 {
      if IsWhitespace(s[0]) {
        var rest := TrimStart(s);
        CollapseKeepsLetters(rest);
        LettersSkipRun(s);
        LettersAfterUnderscore(CollapseWhitespace(rest));
      } else {
        CollapseKeepsLetters(s[1..]);
        LettersAfterFirst(s, CollapseWhitespace(s[1..]));
      }
    }
  }

  /** Leading whitespace contributes no letters. */
  lemma LettersSkipRun(s: string)
    ensures Letters(TrimStart(s)) == Letters(s)
  {
    var rest := TrimStart(s);
    var k := |s| - |rest|;
    assert s == s[..k] + rest;
    FilterConcat(s[..k], rest, Kept);
    FilterNonePass(s[..k], Kept);
  }

  /** An underscore contributes no letters. */
  lemma LettersAfterUnderscore(t: string)
    ensures Letters("_" + t) == Letters(t)
  {
    FilterConcat("_", t, Kept);
    FilterNonePass("_", Kept);
  }

  /** A first character is kept or dropped on its own, whatever follows it. */
  lemma LettersAfterFirst(s: string, t: string)
    requires |s| > 0 && Letters(t) == Letters(s[1..])
    ensures Letters([s[0]] + t) == Letters(s)
  {
    FilterConcat([s[0]], t, Kept);
    assert s == [s[0]] + s[1..];
    FilterConcat([s[0]], s[1..], Kept);
  }

  /** Collapsing starts with the name's first character when that is not whitespace. */
  lemma CollapseStartsWithFirst(s: string)
    requires |s| > 0 && !IsWhitespace(s[0])
    ensures |CollapseWhitespace(s)| > 0 && CollapseWhitespace(s)[0] == s[0]
  {
  }

  predicate NoUnderscore(s: string) {
    forall i :: 0 <= i < |s| ==> s[i] != '_'
  }

  predicate NoDoubleUnderscore(s: string) {
    forall i :: 0 <= i < |s| - 1 ==> !(s[i] == '_' && s[i + 1] == '_')
  }

  /** A name without underscores gives a file name in which underscores never follow each other. */
  lemma {:induction false} CollapseSeparatesWords(s: string)
    requires NoUnderscore(s)
    ensures NoDoubleUnderscore(CollapseWhitespace(s))
    decreases |s|
  {
    if |s| > 0 {
      var r := CollapseWhitespace(s);
      if IsWhitespace(s[0]) {
        var rest := TrimStart(s);
        assert forall i :: 0 <= i < |rest| ==> rest[i] == s[|s| - |rest| + i];
        CollapseSeparatesWords(rest);
        if |rest| > 0 {
          CollapseStartsWithFirst(rest);
        }
        assert r == "_" + CollapseWhitespace(rest);
      } else {
        CollapseSeparatesWords(s[1..]);
        assert r == [s[0]] + CollapseWhitespace(s[1..]);
      }
    }
  }

  /** Trimming the start skips a whole run of whitespace and stops at the next character. */
  lemma {:induction false} TrimStartSkipsRun(w: string, b: string)
    requires AllWhitespace(w) && (|b| == 0 || !IsWhitespace(b[0]))
    ensures TrimStart(w + b) == b
    decreases |w|
  {
    if |w| > 0 {
      assert (w + b)[0] == w[0];
      assert (w + b)[1..] == w[1..] + b;
      TrimStartSkipsRun(w[1..], b);
    } else {
      assert w + b == b;
    }
  }

  /** A run of whitespace after a word becomes exactly one underscore, whatever its length
      and its characters. */
  lemma {:induction false} CollapseRun(a: string, w: string, b: string)
    requires NoWhitespace(a) && |w| > 0 && AllWhitespace(w) && (|b| == 0 || !IsWhitespace(b[0]))
    ensures CollapseWhitespace(a + w + b) == a + "_" + CollapseWhitespace(b)
    decreases |a|
  {
    if |a| == 0 {
      assert a + w + b == w + b;
      assert (w + b)[0] == w[0];
      TrimStartSkipsRun(w, b);
    } else {
      var s := a + w + b;
      assert s[0] == a[0];
      assert s[1..] == a[1..] + w + b;
      CollapseRun(a[1..], w, b);
      assert a + "_" + CollapseWhitespace(b) == [a[0]] + (a[1..] + "_" + CollapseWhitespace(b));
    }
  }

  /** `name.replace(/ /g, "_")`: each space becomes an underscore, other whitespace stays. */
  function ReplaceSpaces(s: string): (r: string)
    ensures |r| == |s|
    ensures forall i :: 0 <= i < |s| ==> r[i] == (if s[i] == ' ' then '_' else s[i])
  {
    seq(|s|, i requires 0 <= i < |s| => if s[i] == ' ' then '_' else s[i])
  }

  /** A name whose only whitespace is single spaces, none of them next to another, gets the
      same replacement on both pages; they can differ only on other whitespace or on runs. */
  lemma {:induction false} SanitizersAgreeOnSingleSpaces(s: string)
    requires forall i :: 0 <= i < |s| && IsWhitespace(s[i]) ==> s[i] == ' '
    requires forall i :: 0 <= i < |s| - 1 ==> !(s[i] == ' ' && s[i + 1] == ' ')
    ensures ReplaceSpaces(s) == CollapseWhitespace(s)
    decreases |s|
  {
    if |s| > 0 {
      SanitizersAgreeOnSingleSpaces(s[1..]);
      assert ReplaceSpaces(s) == [ReplaceSpaces(s)[0]] + ReplaceSpaces(s[1..]);
      if IsWhitespace(s[0]) {
        assert TrimStart(s) == TrimStart(s[1..]);
        assert TrimStart(s[1..]) == s[1..];
      }
    }
  }

  /** The fixed parts of the two download names. */
  const CompactPrefix: string := "IQ_Certificate_"
  const FullPrefix: string := "MindMeter_Certificate_"
  const PdfSuffix: string := ".pdf"

  /** The download name used by `ResultsPage.js`; the untrimmed name is used, so surrounding
      whitespace shows up as leading or trailing underscores. */
  function CompactFilename(name: string): (f: string)
    ensures |f| >= |CompactPrefix| + |PdfSuffix|
    ensures f[..|CompactPrefix|] == CompactPrefix && f[|f| - |PdfSuffix|..] == PdfSuffix
    ensures f[|CompactPrefix|..|f| - |PdfSuffix|] == CollapseWhitespace(name)
    ensures NoWhitespace(f)
  {
    var middle := CollapseWhitespace(name);
    var f := CompactPrefix + middle + PdfSuffix;
    assert f[..|CompactPrefix|] == CompactPrefix && f[|f| - |PdfSuffix|..] == PdfSuffix
        && f[|CompactPrefix|..|f| - |PdfSuffix|] == middle;
    assert NoWhitespace(f) by {
      FixedPartsHaveNoWhitespace();
      NoWhitespaceJoin(CompactPrefix, middle, PdfSuffix);
    }
    f
  }

  lemma FixedPartsHaveNoWhitespace()
    ensures NoWhitespace(CompactPrefix) && NoWhitespace(PdfSuffix)
  {
  }

  /** Joining texts without whitespace gives a text without whitespace. */
  lemma NoWhitespaceJoin(a: string, b: string, c: string)
    requires NoWhitespace(a) && NoWhitespace(b) && NoWhitespace(c)
    ensures NoWhitespace(a + b + c)
  {
    var j := a + b + c;
    forall i | 0 <= i < |j| ensures !IsWhitespace(j[i]) {
      if i < |a| {
        assert j[i] == a[i];
      } else if i < |a| + |b| {
        assert j[i] == b[i - |a|];
      } else {
        assert j[i] == c[i - |a| - |b|];
      }
    }
  }

  /** The download name used by `ResultsPage.jsx`: every space of the name becomes an
      underscore and every other character is kept. */
  function FullFilename(name: string): (f: string)
    ensures |f| == |FullPrefix| + |name| + |PdfSuffix|
    ensures f[..|FullPrefix|] == FullPrefix && f[|f| - |PdfSuffix|..] == PdfSuffix
    ensures forall i :: 0 <= i < |name| ==> f[|FullPrefix| + i] == (if name[i] == ' ' then '_' else name[i])
  {
    var f := FullPrefix + ReplaceSpaces(name) + PdfSuffix;
    assert forall i :: 0 <= i < |name| ==> f[|FullPrefix| + i] == ReplaceSpaces(name)[i];
    f
  }

  /** For a name whose only whitespace is single spaces, the two pages put the same text
      between their fixed parts. */
  lemma FilenamesAgreeOnSingleSpaces(name: string)
    requires forall i :: 0 <= i < |name| && IsWhitespace(name[i]) ==> name[i] == ' '
    requires forall i :: 0 <= i < |name| - 1 ==> !(name[i] == ' ' && name[i + 1] == ' ')
    ensures var full := FullFilename(name);
      full[|FullPrefix|..|full| - |PdfSuffix|] == CompactFilename(name)[|CompactPrefix|..|CompactFilename(name)| - |PdfSuffix|]
  {
    var full := FullFilename(name);
    SanitizersAgreeOnSingleSpaces(name);
    assert full[|FullPrefix|..|full| - |PdfSuffix|] == ReplaceSpaces(name);
  }
}
