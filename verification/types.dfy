/** The data shapes the reader components share. */
module Types {
  import opened Wrappers

  /**
   * One entry of a book's table of contents. A missing `children` array renders exactly like an
   * empty one, so both are the empty sequence here.
   */
  datatype Chapter = Chapter(
    id: string,
    title: string,
    content: string,
    order: int,
    href: string,
    children: seq<Chapter>,
    level: Option<int>,
    parentId: Option<string>)

  /**
   * The summary request as the reading view sends it: the optional `images` and `customPrompt`
   * are never set there. `ratioTenths` stands for the `ratio` fraction in tenths.
   */
  datatype SummarizeRequest = SummarizeRequest(content: string, ratioTenths: int, language: string)

  /**
   * The backend's answer to a summary request. `actualPercent` stands for the `actualRatio`
   * fraction as the badge shows it, already multiplied by 100 and rounded.
   */
  datatype SummarizeResponse = SummarizeResponse(
    summary: string,
    originalTokens: int,
    summaryTokens: int,
    actualPercent: int)
}
