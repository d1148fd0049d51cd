// White space as JavaScript's trim functions see it, by UTF-16 code unit.
module JsText {

  predicate IsSpace(n: int) {
    9 <= n <= 13 || n == 32 || n == 160 || n == 5760 || 8192 <= n <= 8202 || n == 8232 || n == 8233 || n == 8239 ||
    n == 8287 || n == 12288 || n == 65279
  }

  /** The same, code unit by code unit. */
  lemma SpacesAre(n: int)
    ensures IsSpace(n) <==>
              n in {9, 10, 11, 12, 13, 32, 160, 5760, 8192, 8193, 8194, 8195, 8196, 8197, 8198, 8199, 8200, 8201,
                    8202, 8232, 8233, 8239, 8287, 12288, 65279}
  {
  }
}
