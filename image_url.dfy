/** `get_image_url`: choose the image to show for an article from its list of
    multimedia entries. */
module ImageUrl {
  import opened Seqs

  /** The format tag of the preferred thumbnail. */
  const PreferredFormat: string := "threeByTwoSmallAt2X"

  /** The `url` entry of a media item: no `url` key, a `url` key holding null,
      or a `url` key holding a string. */
  datatype UrlEntry = NoUrl | NullUrl | Url(text: string)

  /** One multimedia dictionary; `format` is None when the key is absent or null. */
  datatype MediaItem = MediaItem(url: UrlEntry, format: Option<string>)

  /** The `multimedia` value of an article: a list, or anything else. */
  datatype Multimedia = NotAList | MediaList(items: seq<MediaItem>)

  /** What reading the `url` key yields; a null value reads as None. */
  function UrlValue(e: UrlEntry): Option<string> {
    match e
    case Url(text) => Some(text)
    case _ => None
  }

  /** The item has a `url` key and the preferred format tag. */
  predicate IsPreferred(item: MediaItem) {
    item.url != NoUrl && item.format == Some(PreferredFormat)
  }

  /** The scan over the items: the position of the first preferred item. */
  function FirstPreferred(items: seq<MediaItem>): (r: Option<nat>)
    ensures r.None? <==> forall i :: 0 <= i < |items| ==> !IsPreferred(items[i])
    ensures r.Some? ==> r.value < |items| && IsPreferred(items[r.value])
    ensures r.Some? ==> forall j :: 0 <= j < r.value ==> !IsPreferred(items[j])
  {
    if items == [] then None
    else if IsPreferred(items[0]) then Some(0)
    else match FirstPreferred(items[1..])
      case None => None
      case Some(k) => Some(k + 1)
  }

  /** The url of the first preferred item; failing that, the first item's url
      if it has one; no image for an empty list or a value that is not a list. */
  function GetImageUrl(multimedia: Multimedia): (r: Option<string>)
    ensures multimedia.NotAList? ==> r == None
    ensures multimedia == MediaList([]) ==> r == None
    ensures multimedia.MediaList? ==>
      forall i :: 0 <= i < |multimedia.items| && IsPreferred(multimedia.items[i])
        && (forall j :: 0 <= j < i ==> !IsPreferred(multimedia.items[j]))
        ==> r == UrlValue(multimedia.items[i].url)
    ensures multimedia.MediaList? && multimedia.items != []
      && (forall i :: 0 <= i < |multimedia.items| ==> !IsPreferred(multimedia.items[i]))
      ==> r == UrlValue(multimedia.items[0].url)
    ensures r.Some? ==>
      multimedia.MediaList? &&
      exists i :: 0 <= i < |multimedia.items| && multimedia.items[i].url == Url(r.value)
  {
    match multimedia
    case NotAList => None
    case MediaList(items) =>
      if items == [] then None
      else match FirstPreferred(items)
        case Some(i) => UrlValue(items[i].url)
        case None => UrlValue(items[0].url)
  }

  /** The fallback never reaches past the first item: without a preferred item,
      an image url is always the first item's. */
  lemma FallbackIsFirstItemOnly(items: seq<MediaItem>, u: string)
    requires forall i :: 0 <= i < |items| ==> !IsPreferred(items[i])
    requires GetImageUrl(MediaList(items)) == Some(u)
    ensures items[0].url == Url(u)
  {
  }

  /** A preferred item whose `url` is null ends the scan with no image; it is
      not skipped in favour of a later item. */
  lemma NullPreferredUrlGivesNoImage(u: string)
    ensures GetImageUrl(MediaList([
      MediaItem(NullUrl, Some(PreferredFormat)),
      MediaItem(Url(u), Some(PreferredFormat))])) == None
  {
  }

  /** A preferred-format item without a `url` key is skipped, and the first
      item is not a fallback when a later item is preferred. */
  lemma PreferredItemsWithoutUrlAreSkipped()
    ensures GetImageUrl(MediaList([
      MediaItem(Url("A"), Some("other")),
      MediaItem(NoUrl, Some(PreferredFormat)),
      MediaItem(Url("B"), Some(PreferredFormat))])) == Some("B")
  {
    var items := [
      MediaItem(Url("A"), Some("other")),
      MediaItem(NoUrl, Some(PreferredFormat)),
      MediaItem(Url("B"), Some(PreferredFormat))];
    assert !IsPreferred(items[0]) && !IsPreferred(items[1]) && IsPreferred(items[2]);
    assert FirstPreferred(items[2..]) == Some(0);
    assert FirstPreferred(items[1..]) == Some(1);
    assert FirstPreferred(items) == Some(2);
  }
}
