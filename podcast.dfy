/** The podcast text that the enhancement and speech helpers share
    (`PodcastContent` in `murphy/src/lib/gemini.ts`). */
module Podcast {

  datatype PodcastContent = PodcastContent(title: string, description: string, content: string)
}
