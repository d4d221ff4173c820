/** The format registry: the fixed, ordered lists of audio and video format
    tokens that the converter accepts as output formats. */
module Formats {

  /** The seven audio formats, none listed twice. */
  function AudioFormats(): (r: seq<string>)
    ensures |r| == 7 && NoDuplicates(r)
  {
    ["mp3", "wav", "flac", "aac", "m4a", "ogg", "wma"]
  }

  /** The eight video formats, none listed twice. */
  function VideoFormats(): (r: seq<string>)
    ensures |r| == 8 && NoDuplicates(r)
  {
    ["mp4", "mkv", "avi", "mov", "webm", "flv", "wmv", "m4v"]
  }

  /** Every accepted format: audio first, then video, nothing dropped or repeated. */
  function AllFormats(): (r: seq<string>)
    ensures |r| == |AudioFormats()| + |VideoFormats()|
    ensures r[..|AudioFormats()|] == AudioFormats()
    ensures r[|AudioFormats()|..] == VideoFormats()
    ensures forall f :: f in r <==> f in AudioFormats() || f in VideoFormats()
  {
    AudioFormats() + VideoFormats()
  }

  /** A format token is non-empty and made of lower-case ASCII letters and digits. */
  predicate IsFormatToken(f: string) {
    |f| > 0 && forall i :: 0 <= i < |f| ==> 'a' <= f[i] <= 'z' || '0' <= f[i] <= '9'
  }

  predicate NoDuplicates(s: seq<string>) {
    forall i, j :: 0 <= i < j < |s| ==> s[i] != s[j]
  }

  /** The two lists share no token, so each format is audio or video, never both. */
  lemma FormatListsDisjoint()
    ensures forall f :: f in AudioFormats() ==> f !in VideoFormats()
    ensures forall f :: f in VideoFormats() ==> f !in AudioFormats()
  {
  }

  /** No token is listed twice and every token is plain lower-case text. */
  lemma AllFormatsWellFormed()
    ensures NoDuplicates(AllFormats())
    ensures forall f :: f in AllFormats() ==> IsFormatToken(f)
  {
    FormatListsDisjoint();
    forall f | f in AllFormats() ensures IsFormatToken(f) {
      if f in AudioFormats() { AudioTokens(f); } else { VideoTokens(f); }
    }
  }

  /** Every registry format is a plain lower-case token. */
  lemma RegistryFormatIsToken(f: string)
    requires f in AllFormats()
    ensures IsFormatToken(f)
  {
    if f in AudioFormats() { AudioTokens(f); } else { VideoTokens(f); }
  }

  lemma AudioTokens(f: string)
    requires f in AudioFormats()
    ensures IsFormatToken(f)
  {
  }

  lemma VideoTokens(f: string)
    requires f in VideoFormats()
    ensures IsFormatToken(f)
  {
  }
}
