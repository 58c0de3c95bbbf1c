/** Artist/title split and ID3 frame selection (metadata.py). */
module Metadata {
  import opened Text

  // ---------------------------------------------------------------------------
  // extrair_artista_do_titulo
  // ---------------------------------------------------------------------------

  const Separator := " - "

  /** `(artist, song)`: split once at the first `" - "` and strip both halves;
      a title without the separator gives no artist and the title untouched. */
  function SplitTitle(title: string): (r: (Option<string>, string))
    ensures r.0.None? <==> !Contains(title, Separator)
    ensures r.0.None? ==> r.1 == title
  {
    match Find(title, Separator)
    case None => (None, title)
    case Some(i) => (Some(Strip(title[..i])), Strip(title[i + |Separator|..]))
  }

  /** The split happens at the first separator: the artist is the stripped text
      before it and the song the stripped text after it. */
  lemma SplitAtFirstSeparator(title: string, i: nat)
    requires OccursAt(title, Separator, i)
    requires forall j :: 0 <= j < i ==> !OccursAt(title, Separator, j)
    ensures SplitTitle(title) == (Some(Strip(title[..i])), Strip(title[i + 3..]))
  {
    assert Contains(title, Separator);
    var f := Find(title, Separator).value;
    assert f >= i;
    assert f <= i;
  }

  /** The text before the first occurrence of a pattern holds no occurrence of it. */
  lemma NoneBeforeFirst(s: string, p: string, i: nat)
    requires p != [] && i <= |s|
    requires forall j :: 0 <= j < i ==> !OccursAt(s, p, j)
    ensures !Contains(s[..i], p)
  {
    if Contains(s[..i], p) {
      var q :| 0 <= q <= i && OccursAt(s[0..i], p, q);
      OccursInSlice(s, p, 0, i, q);
    }
  }

  /** The artist never contains the separator: it is the stripped text before the first one. */
  lemma ArtistHasNoSeparator(title: string)
    requires SplitTitle(title).0.Some?
    ensures !Contains(SplitTitle(title).0.value, Separator)
  {
    var i := Find(title, Separator).value;
    NoneBeforeFirst(title, Separator, i);
    StripKeepsAbsence(title[..i], Separator);
  }

  lemma {:induction false} NoSeparatorWithoutSpace(s: string)
    requires ' ' !in s
    ensures !Contains(s, Separator)
  {
    forall k | 0 <= k <= |s| ensures !OccursAt(s, Separator, k) {
      if k + 3 <= |s| {
        assert s[k] in s;
        assert s[k..k + 3][0] == s[k];
      }
    }
  }

  /** A title whose artist part has no space splits exactly at the separator after it. */
  lemma SplitAfterSpacelessArtist(artist: string, rest: string)
    requires ' ' !in artist
    ensures SplitTitle(artist + Separator + rest) == (Some(Strip(artist)), Strip(rest))
  {
    var t := artist + Separator + rest;
    var n := |artist|;
    assert t[n..n + 3] == Separator;
    forall j | 0 <= j < n ensures !OccursAt(t, Separator, j) {
      assert t[j] == artist[j];
      assert t[j..j + 3][0] == t[j];
    }
    SplitAtFirstSeparator(t, n);
    assert t[..n] == artist && t[n + 3..] == rest;
  }

  /** With no space in the artist and none around the song, the split returns both parts verbatim. */
  lemma SplitCleanParts(artist: string, song: string)
    requires artist != [] && ' ' !in artist && !IsSpace(artist[0]) && !IsSpace(artist[|artist| - 1])
    requires song != [] && !IsSpace(song[0]) && !IsSpace(song[|song| - 1])
    ensures SplitTitle(artist + Separator + song) == (Some(artist), song)
  {
    SplitAfterSpacelessArtist(artist, song);
    StripKeeps(artist);
    StripKeeps(song);
  }

  lemma SplitArtistSong(t: string)
    requires t == "Artist - Song"
    ensures SplitTitle(t) == (Some("Artist"), "Song")
  {
    var artist, song := "Artist", "Song";
    assert t == artist + Separator + song;
    SplitCleanParts(artist, song);
  }

  /** Only the first separator splits. */
  lemma SplitOnFirstOnly(t: string)
    requires t == "A - B - C"
    ensures SplitTitle(t) == (Some("A"), "B - C")
  {
    var artist, song := "A", "B - C";
    assert t == artist + Separator + song;
    SplitCleanParts(artist, song);
  }

  lemma SplitWithoutSeparator(t: string)
    requires t == "JustATitle"
    ensures SplitTitle(t) == (None, t)
  {
    NoSeparatorWithoutSpace(t);
  }

  // ---------------------------------------------------------------------------
  // aplicar_metadados
  // ---------------------------------------------------------------------------

  /** The key mutagen files an ID3 frame under: TIT2, TPE1, TALB, `APIC:Cover`, or any other frame already in the file. */
  datatype FrameKey = Title | Artist | Album | Cover | Other(id: string)

  datatype Frame =
    | TextFrame(text: string)
    | Picture(mime: string, pictureType: int, desc: string, data: seq<byte>)

  type Tags = map<FrameKey, Frame>

  /** What the outside world does for one call: the tags read from the MP3
      (`None` when opening it raises; an untagged file reads as no frames),
      the JPEG the image library produces from the thumbnail (`None` when that
      raises), and whether saving succeeds. */
  datatype Mp3File = Mp3File(tags: Option<Tags>, coverJpeg: Option<seq<byte>>, saves: bool)

  const CoverMime := "image/jpeg"
  const FrontCover := 3

  /** `after` holds `want` under `k` when there is one, and otherwise the frame `before` held (or none). */
  predicate Updated(before: Tags, after: Tags, k: FrameKey, want: Option<Frame>) {
    if want.Some? then k in after && after[k] == want.value
    else (k in after <==> k in before) && (k in before ==> after[k] == before[k])
  }

  predicate Kept(before: Tags, after: Tags, k: FrameKey) {
    Updated(before, after, k, None)
  }

  /** The frames a successful `apply_metadata` leaves: title, artist and
      album replaced by their non-empty values, the cover by the converted
      thumbnail when there is one, and everything else as it was. */
  ghost predicate Written(file: Mp3File, after: Tags, title: string, artist: Option<string>,
                    album: Option<string>, thumbnail: Option<seq<byte>>)
    requires file.tags.Some?
  {
    var before := file.tags.value;
    Updated(before, after, Title, if title != "" then Some(TextFrame(title)) else None) &&
    Updated(before, after, Artist, if Truthy(artist) then Some(TextFrame(artist.value)) else None) &&
    Updated(before, after, Album, if Truthy(album) then Some(TextFrame(album.value)) else None) &&
    Updated(before, after, Cover, if Truthy(thumbnail) && file.coverJpeg.Some?
                                  then Some(Picture(CoverMime, FrontCover, "Cover", file.coverJpeg.value)) else None) &&
    forall k: FrameKey :: k.Other? ==> Kept(before, after, k)
  }

  /** Adds the frames one by one and saves. A title, artist or album frame is
      written only for a non-empty argument; a cover frame only for non-empty
      thumbnail data whose conversion succeeds, a failed conversion being
      skipped; every other frame is kept. Any other failure gives `false` and
      leaves the file as it was; nothing escapes. */
  method ApplyMetadata(file: Mp3File, title: string, artist: Option<string> := None,
                       album: Option<string> := None, thumbnail: Option<seq<byte>> := None)
    returns (ok: bool, saved: Option<Tags>)
    ensures ok <==> file.tags.Some? && file.saves
    ensures saved.Some? <==> ok
    ensures ok ==> Written(file, saved.value, title, artist, album, thumbnail)
  {
    if file.tags.None? {
      return false, None;
    }
    var tags := file.tags.value;
    if title != "" {
      tags := tags[Title := TextFrame(title)];
    }
    if Truthy(artist) {
      tags := tags[Artist := TextFrame(artist.value)];
    }
    if Truthy(album) {
      tags := tags[Album := TextFrame(album.value)];
    }
    if Truthy(thumbnail) {
      match file.coverJpeg
      case Some(jpeg) =>
        tags := tags[Cover := Picture(CoverMime, FrontCover, "Cover", jpeg)];
      case None =>
        // the image error is logged and the cover skipped
    }
    if !file.saves {
      return false, None;
    }
    ghost var before := file.tags.value;
    assert Updated(before, tags, Title, if title != "" then Some(TextFrame(title)) else None);
    assert Updated(before, tags, Artist, if Truthy(artist) then Some(TextFrame(artist.value)) else None);
    assert Updated(before, tags, Album, if Truthy(album) then Some(TextFrame(album.value)) else None);
    assert Updated(before, tags, Cover, if Truthy(thumbnail) && file.coverJpeg.Some?
                                        then Some(Picture(CoverMime, FrontCover, "Cover", file.coverJpeg.value)) else None);
    assert forall k: FrameKey :: k.Other? ==> Kept(before, tags, k);
    return true, Some(tags);
  }
}
