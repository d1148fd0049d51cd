/** Two triggers of the card table keep titles short (src/db.ts): a title over
    the limit is cut when a row is inserted and when its title changes. A long
    title that is there already stays. */
module TitleGate {
  const TITLE_LIMIT := 300

  predicate Fits(was: string, title: string) {
    |title| <= TITLE_LIMIT || title == was
  }

  // Cut to the limit, with an ellipsis at the end.
  function Shortened(title: string): (r: string)
    requires |title| > TITLE_LIMIT
    ensures |r| == TITLE_LIMIT
  {
    title[..TITLE_LIMIT - 1] + "\U{2026}"
  }

  // What the table holds after `title` is written over `was`, and into a new row.
  function StoredTitle(was: string, title: string): string {
    if Fits(was, title) then title else Shortened(title)
  }

  function NewTitle(title: string): string {
    if |title| <= TITLE_LIMIT then title else Shortened(title)
  }
}
