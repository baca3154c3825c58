/**
 * The per-file `state` dictionary that three of the checks read and update,
 * and the `(offset, text)` pair every check may answer with.
 */
module CheckState {
  import opened Wrappers

  /** What a check reports: the offset in its line and the message, code first. */
  datatype Finding = Finding(offset: int, text: string)

  /**
   * The contents of `state`: one entry per key the checks use
   * ('indent_char', 'indent_level', 'indent_expect', 'blank_lines');
   * `None` is a key the dictionary does not hold yet.
   */
  datatype StateView = StateView(
    indentChar: Option<char>,
    indentLevel: Option<int>,
    indentExpect: Option<bool>,
    blankLines: Option<int>)

  /** `{}`, the dictionary `check_all` starts every file with. */
  const EmptyState := StateView(None, None, None, None)

  /** The dictionary itself, shared by reference between the checks of one file. */
  class State {
    var indentChar: Option<char>
    var indentLevel: Option<int>
    var indentExpect: Option<bool>
    var blankLines: Option<int>

    function View(): StateView
      reads this
    {
      StateView(indentChar, indentLevel, indentExpect, blankLines)
    }

    constructor ()
      ensures View() == EmptyState
    {
      indentChar, indentLevel, indentExpect, blankLines := None, None, None, None;
    }
  }
}
