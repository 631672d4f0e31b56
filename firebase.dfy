/** The document `addPodcast` (`murphy/src/lib/firebase.ts`) hands to
    Firestore: four fields copied from the arguments, the user under
    `user-id`, and the language-to-URL record projected onto seven fixed
    languages. */
module Firebase {

  /** The languages the stored `urls` record always has. */
  const UrlKeys: set<string> := {"bengali", "english", "french", "german", "hindhi", "italy", "tamil"}

  /** `urls.<language> || ""` for each of the seven languages: the given URL
      when there is a non-empty one, the empty string otherwise; any other
      key of the input is dropped. */
  function NormalizeUrls(urls: map<string, string>): (r: map<string, string>)
    ensures r.Keys == UrlKeys
    ensures forall k :: k in r ==> r[k] == (if k in urls && urls[k] != "" then urls[k] else "")
  {
    map k | k in UrlKeys :: if k in urls && urls[k] != "" then urls[k] else ""
  }

  /** The input's keys outside the seven languages do not reach the result. */
  lemma NormalizeUrlsDropsOthers(urls: map<string, string>, k: string)
    requires k in urls && k !in UrlKeys
    ensures k !in NormalizeUrls(urls)
  {
  }

  /** Two inputs that agree on the seven languages give the same record. */
  lemma NormalizeUrlsReadsLanguagesOnly(urls: map<string, string>, other: map<string, string>)
    requires forall k :: k in UrlKeys ==> (k in urls <==> k in other)
    requires forall k :: k in UrlKeys && k in urls ==> urls[k] == other[k]
    ensures NormalizeUrls(urls) == NormalizeUrls(other)
  {
    var r, q := NormalizeUrls(urls), NormalizeUrls(other);
    forall k | k in UrlKeys
      ensures r[k] == q[k]
    {
    }
  }

  /** Normalising twice is normalising once. */
  lemma NormalizeUrlsIdempotent(urls: map<string, string>)
    ensures NormalizeUrls(NormalizeUrls(urls)) == NormalizeUrls(urls)
  {
    var r := NormalizeUrls(urls);
    forall k | k in UrlKeys
      ensures NormalizeUrls(r)[k] == r[k]
    {
    }
  }

  /** A record is left as it is exactly when it already has the seven
      languages and nothing else. */
  lemma NormalizeUrlsFixedPoints(urls: map<string, string>)
    ensures NormalizeUrls(urls) == urls <==> urls.Keys == UrlKeys
  {
    if urls.Keys == UrlKeys {
      forall k | k in UrlKeys
        ensures NormalizeUrls(urls)[k] == urls[k]
      {
      }
    }
  }

  /** A field of the stored document: a string, or the `urls` record. */
  datatype Field = Text(text: string) | Record(entries: map<string, string>)

  /** The collection the document is added to. */
  const PodcastCollection := "podcasts/podcasts"

  /** What `addPodcast` asks Firestore to add. */
  datatype Write = Write(collection: string, document: map<string, Field>)

  function AddPodcast(description: string, idea: string, podcastId: string, podcastTextContent: string,
                      userId: string, urls: map<string, string>): Write {
    Write(PodcastCollection, map[
      "description" := Text(description),
      "idea" := Text(idea),
      "podcastId" := Text(podcastId),
      "podcastTextContent" := Text(podcastTextContent),
      "urls" := Record(NormalizeUrls(urls)),
      "user-id" := Text(userId)])
  }

  /** The document has exactly six fields: the four text arguments under
      their own names, the user under `user-id`, and the normalised URLs;
      the text fields are copied verbatim, so the arguments can be read
      back from the document. */
  lemma AddPodcastDocument(description: string, idea: string, podcastId: string, podcastTextContent: string,
                           userId: string, urls: map<string, string>)
    ensures var w := AddPodcast(description, idea, podcastId, podcastTextContent, userId, urls);
      && w.collection == PodcastCollection
      && w.document.Keys == {"description", "idea", "podcastId", "podcastTextContent", "urls", "user-id"}
      && w.document["description"] == Text(description)
      && w.document["idea"] == Text(idea)
      && w.document["podcastId"] == Text(podcastId)
      && w.document["podcastTextContent"] == Text(podcastTextContent)
      && w.document["user-id"] == Text(userId)
      && w.document["urls"].Record?
      && w.document["urls"].entries.Keys == UrlKeys
  {
  }
}
