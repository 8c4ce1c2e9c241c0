/** TextCleaner.clean: curly double quotes become straight ones, newlines become spaces, the text
    is put through Unicode NFKD normalisation, and surrounding whitespace is stripped.
    The normalisation is a parameter: any function from strings to strings. */
module TextCleaner {
  import opened Text

  const LeftQuote: char := '\U{201C}'
  const RightQuote: char := '\U{201D}'

  /** The substitution of `re.compile("[“”]").sub('"', ...)`. */
  function SubstituteQuotes(s: string): (r: string)
    ensures |r| == |s|
    ensures LeftQuote !in r && RightQuote !in r
    ensures forall k :: 0 <= k < |s| ==>
              r[k] == (if s[k] == LeftQuote || s[k] == RightQuote then '"' else s[k])
  {
    seq(|s|, k requires 0 <= k < |s| =>
      if s[k] == LeftQuote || s[k] == RightQuote then '"' else s[k])
  }

  /** The text before normalisation: quotes substituted, then every newline replaced by a space. */
  function Substituted(paragraph: string): string {
    ReplaceChar(SubstituteQuotes(paragraph), '\n', ' ')
  }

  /** TextCleaner.clean, with `normalize` standing for unicodedata.normalize("NFKD", ...). */
  function Clean(normalize: string -> string, paragraph: string): (r: string)
    ensures r == [] || (!IsSpace(r[0]) && !IsSpace(r[|r| - 1]))
  {
    Strip(normalize(Substituted(paragraph)))
  }

  predicate NoQuotesOrNewlines(s: string) {
    LeftQuote !in s && RightQuote !in s && '\n' !in s
  }

  /** A normalisation that does not bring curly double quotes or newlines into a text without
      them (NFKD maps no character to those three). */
  ghost predicate IntroducesNone(normalize: string -> string) {
    forall s :: NoQuotesOrNewlines(s) ==> NoQuotesOrNewlines(normalize(s))
  }

  /** Cleaned text contains no curly double quote and no newline: it is a single line. */
  lemma CleanIsSingleLine(normalize: string -> string, paragraph: string)
    requires IntroducesNone(normalize)
    ensures NoQuotesOrNewlines(Clean(normalize, paragraph))
  {
    var t := Substituted(paragraph);
    assert LeftQuote !in t && RightQuote !in t by {
      var q := SubstituteQuotes(paragraph);
      forall k | 0 <= k < |t| ensures t[k] != LeftQuote && t[k] != RightQuote {
        assert t[k] == q[k] || t[k] == ' ';
      }
    }
    assert NoQuotesOrNewlines(normalize(t));
    var n := normalize(t);
    StripChars(n, LeftQuote);
    StripChars(n, RightQuote);
    StripChars(n, '\n');
  }

  /** The substituted text, character by character: a curly double quote becomes a straight one,
      a newline a space, and every other character stays. */
  lemma SubstitutedAt(paragraph: string)
    ensures var t := Substituted(paragraph);
            && |t| == |paragraph|
            && forall k :: 0 <= k < |t| ==>
                 t[k] == (if paragraph[k] == LeftQuote || paragraph[k] == RightQuote then '"'
                          else if paragraph[k] == '\n' then ' '
                          else paragraph[k])
  {
    var t := Substituted(paragraph);
    var q := SubstituteQuotes(paragraph);
    forall k | 0 <= k < |t|
      ensures t[k] == (if paragraph[k] == LeftQuote || paragraph[k] == RightQuote then '"'
                       else if paragraph[k] == '\n' then ' '
                       else paragraph[k])
    {
      assert t[k] == (if q[k] == '\n' then ' ' else q[k]);
    }
  }

  /** Without normalisation, cleaning is exactly the character substitution followed by
      stripping: the result is the substituted text minus its surrounding whitespace. */
  lemma CleanWithoutNormalization(paragraph: string)
    ensures var t, c := Substituted(paragraph), Clean(s => s, paragraph);
            && |t| == |paragraph|
            && (forall k :: 0 <= k < |t| ==>
                  t[k] == (if paragraph[k] == LeftQuote || paragraph[k] == RightQuote then '"'
                           else if paragraph[k] == '\n' then ' '
                           else paragraph[k]))
            && LeadingSpace(t) + |c| <= |t|
            && c == t[LeadingSpace(t)..LeadingSpace(t) + |c|]
            && (forall k :: 0 <= k < LeadingSpace(t) ==> IsSpace(t[k]))
            && (forall k :: LeadingSpace(t) + |c| <= k < |t| ==> IsSpace(t[k]))
  {
    SubstitutedAt(paragraph);
    var t := Substituted(paragraph);
    var c := Clean(s => s, paragraph);
    assert c == Strip(t);
  }
}
