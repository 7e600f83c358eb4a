/** The link tests of the update loop: plain substring checks on the message text. */
module Links {
  import opened Strings

  const YouTubeHost: string := "youtube.com/"
  const YouTubeShortHost: string := "youtu.be/"
  const SoundCloudHost: string := "soundcloud.com/"

  /** `isYouTubeLink`. */
  predicate IsYouTubeLink(text: string) {
    Contains(text, YouTubeHost) || Contains(text, YouTubeShortHost)
  }

  /** `isSoundCloudLink`. */
  predicate IsSoundCloudLink(text: string) {
    Contains(text, SoundCloudHost)
  }

  /** The test the update loop applies before storing a pending link. */
  predicate IsLink(text: string) {
    IsYouTubeLink(text) || IsSoundCloudLink(text)
  }

  /** A YouTube link is one that mentions either YouTube host marker anywhere. */
  lemma YouTubeLinkIff(text: string)
    ensures IsYouTubeLink(text) <==>
      (exists i :: OccursAt(text, YouTubeHost, i)) || (exists i :: OccursAt(text, YouTubeShortHost, i))
  {
    ContainsIff(text, YouTubeHost);
    ContainsIff(text, YouTubeShortHost);
  }

  /** A SoundCloud link is one that mentions the SoundCloud host marker anywhere. */
  lemma SoundCloudLinkIff(text: string)
    ensures IsSoundCloudLink(text) <==> exists i :: OccursAt(text, SoundCloudHost, i)
  {
    ContainsIff(text, SoundCloudHost);
  }

  /** Text around a marker does not matter: whatever precedes or follows it, the text
      is still classified as a link of that platform. */
  lemma MarkerAnywhere(before: string, marker: string, after: string)
    requires marker in {YouTubeHost, YouTubeShortHost, SoundCloudHost}
    ensures marker == SoundCloudHost ==> IsSoundCloudLink(before + marker + after)
    ensures marker != SoundCloudHost ==> IsYouTubeLink(before + marker + after)
    ensures IsLink(before + marker + after)
  {
    var t := before + marker + after;
    assert t[|before|..|before| + |marker|] == marker;
    assert OccursAt(t, marker, |before|);
    ContainsIff(t, marker);
  }

  /** Every host marker holds a dot, so a text without one is never a link. */
  lemma NoDotNoLink(text: string)
    requires forall i :: 0 <= i < |text| ==> text[i] != '.'
    ensures !IsLink(text)
  {
    YouTubeLinkIff(text);
    SoundCloudLinkIff(text);
    forall i | OccursAt(text, YouTubeHost, i) ensures false {
      CharOfOccurrence(text, YouTubeHost, i, 7);
    }
    forall i | OccursAt(text, YouTubeShortHost, i) ensures false {
      CharOfOccurrence(text, YouTubeShortHost, i, 5);
    }
    forall i | OccursAt(text, SoundCloudHost, i) ensures false {
      CharOfOccurrence(text, SoundCloudHost, i, 10);
    }
  }

  /** The empty message and the two platform names are never links, so the loop's
      link branch can never swallow a platform choice. */
  lemma NotLinks()
    ensures !IsLink("")
    ensures !IsLink("YouTube") && !IsLink("SoundCloud")
  {
    NoDotNoLink("");
    NoDotNoLink("YouTube");
    NoDotNoLink("SoundCloud");
  }
}
