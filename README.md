# SudokuUtil: SimpleSudoku rendering, look-and-feel choice, font size

This Dafny project models three parts of HoDoKu's `src/sudoku/SudokuUtil.java` and
proves properties about each.

* **Clue grids.** `getSSFormatted` and `writeSSLine` turn an 81-character clue string
  into the thirteen-line SimpleSudoku grid. Module `ClueGrid` (file `clue_grid.dfy`) is
  a pure model. It proves how long the output is and which character ends up where:
  each clue lands at column `2 + col + col / 3` of line `row + 1 + row / 3`, and a '0'
  is shown as '.'. It also proves that only the first 81 characters matter, and that a
  shorter string throws.
* **Pencil-mark grids.** `getSSPMGrid`, `writeSSPMFrameLine` and `writeSSPMLine` turn a
  pencil-mark grid into the SimpleSudoku pencil-mark layout. Module `PmGrid`
  (`pm_grid.dfy`) has a specification function `PMGrid`. It also has imperative methods
  with the source's loops: the loop storing the split fields in an 81-cell array, the
  in-place padding loop with its inner append loop, the dash loops of the frame line,
  and the thirteen appends. Each method is proved against the specification. The error
  cases are modelled as values:
  * more than 81 candidate lists overrun the array;
  * fewer than 81 leave a null cell, and padding it throws.

  Module `PmGridFields` (`pm_fields.dfy`) proves the round trip: splitting the output
  again yields exactly the candidate lists the grid was built from, so `getSSPMGrid` is
  idempotent on its own output. Module `GridLayout` (`grid_layout.dfy`) holds the
  thirteen-line shape both renderings share.
* **Look and feel.** `setLookAndFeel` (lines 494-536), `getLookAndFeelName`,
  `getNimbusLookAndFeel` and `getNonNimbusLookAndFeel` are modelled in module
  `LookAndFeel` (`look_and_feel.dfy`).
  * The persisted `Options` and the static `lookAndFeelClassName` of `SudokuUtil`
    (class `Session`) are classes whose methods update their fields.
  * The resolution of the stored class name is specified by the function `Resolve`.
    Lemmas prove what it chooses, when it writes the preference back, and that a
    second run changes nothing more.
* **Font size.** `changeFontSizeForNimbus`, `changeFontSizeForNonNimbus` and the
  dispatch at lines 544 and 553 are modelled in module `FontSize` (`font_size.dfy`).
  A defaults table is a class (`UIDefaults`) with a map field. The rewrites are methods
  proved against `NimbusRescaled` and `NonNimbusRescaled`. Lemmas prove that exactly
  the font resources of another size change, and that a second rewrite changes nothing.

Shared pieces:

* `Outcomes` (`outcomes.dfy`): `Option`, `Result`, and the Java exceptions the code can
  raise.
* `Text` (`text.dfy`):
  * the `java.lang.String` operations used: `split(" ")`, `endsWith`, `contains`,
    `lastIndexOf`, and ASCII `isDigit`;
  * `StringBuilder` appends, modelled as concatenation.

Inputs from the environment become parameters:

* the line separator `NEW_LINE` (`nl`);
* the registry of installed look and feels, `UIManager.getInstalledLookAndFeels()`
  (`lafs`);
* `UIManager.getSystemLookAndFeelClassName()` (`systemDefault`);
* the display names `UIManager.createLookAndFeel` can instantiate (`creatable`);
* the two defaults tables: the look and feel's own, and the one `UIManager` answers
  from.

Where the code's behaviour is easy to misread, the model follows the code:

* The registry scan tests each entry for the exact class name and then for the simple
  class name before it moves to the next entry. An earlier entry with the same simple
  name in another package therefore beats a later entry that is exactly the stored
  name (`EarlierSuffixWins`).
* When nothing matches, `setLaf("")` is called even if "" is already stored
  (`ResolveFallsBack`). The ghost field `Options.lafWrites` records every call so that
  this write is visible.
* A stored name ending in '.' has the empty simple name, so it matches the first
  registry entry.
* `getSSFormatted` does not check that the clues are digits. Any 81 or more characters
  are rendered.
* The font-size dispatch reads the class name as it stands after the look and feel was
  obtained. `getNimbusLookAndFeel` may have switched it to the system default by then.

## Model

| member | source | states |
|---|---|---|
| ClueGrid.ReplaceZeros | src/sudoku/SudokuUtil.java:379 | each '0' becomes '.', every other character is kept, the length is unchanged and no '0' remains |
| ClueGrid.SSFormatted | src/sudoku/SudokuUtil.java:377-398 | throws `IndexOutOfBounds` exactly when there are fewer than 81 characters; otherwise the output is 13 lines of width 14 plus the separator |
| ClueGrid.SSLineChars | src/sudoku/SudokuUtil.java:574-583 | a row line is a space, a bar, three clues, a bar, three clues, a bar, three clues, a bar, then the separator, character by character |
| ClueGrid.RowLayout | src/sudoku/SudokuUtil.java:379-394 | the line of row `row` shows that row's clues, with '0' shown as '.' |
| ClueGrid.SSLineLayout | src/sudoku/SudokuUtil.java:380-397 | line `l`, character by character: the outer border on lines 0 and 12, the inner border on lines 4 and 8, a row of clues otherwise |
| ClueGrid.SSFormattedLine | src/sudoku/SudokuUtil.java:377-398 | the output places line `l` at offset `l` times the line width (14 plus the separator); each line ends with the separator |
| ClueGrid.SSFormattedCell | src/sudoku/SudokuUtil.java:377-398 | the clue of row `row`, column `col` is shown (as '.' when '0') at column `2 + col + col / 3` of line `row + 1 + row / 3` |
| ClueGrid.SSFormattedIgnoresTail | src/sudoku/SudokuUtil.java:377-398 | characters after the first 81 never reach the output |
| GridLayout.LineOfRow | src/sudoku/SudokuUtil.java:382-394 | row `row` is shown on line `row + 1 + row / 3`, which is a row line |
| PmGrid.PMGrid | src/sudoku/SudokuUtil.java:406-462 | an array overrun (more than 81 lists) or a null cell (fewer) exactly when there are not 81 candidate lists; otherwise 13 lines of width `9m + 26` plus the separator, where `m` is the longest list |
| PmGrid.SSPMGrid | src/sudoku/SudokuUtil.java:406-462 | the method with the source's loops returns exactly `PMGrid`, errors included |
| PmGrid.StoreCells | src/sudoku/SudokuUtil.java:421-435 | the fields that start with a digit fill the cells in order, the others stay null; the longest length is tracked; overrun exactly when there are more than 81 such fields |
| PmGrid.PadCells | src/sudoku/SudokuUtil.java:437-444 | completes exactly when all 81 cells hold a list; then every cell is padded with spaces to `maxLength` |
| PmGrid.BuildPMGrid | src/sudoku/SudokuUtil.java:446-461 | the thirteen appends produce the concatenation of the thirteen specified lines |
| PmGrid.WriteSSPMFrameLine | src/sudoku/SudokuUtil.java:592-619 | the three dash loops and the joints build `FrameLine` |
| PmGrid.FrameLineChars | src/sudoku/SudokuUtil.java:592-619 | a frame line, character by character: " *", dashes, the joints at `3m + 9` and `6m + 17`, the corner at `9m + 25`, then the separator |
| PmGrid.PMLineJoints | src/sudoku/SudokuUtil.java:628-649 | a row line of cells `m` wide starts with a space, has a bar at each joint position and ends with the separator |
| PmGrid.JointsAlign | src/sudoku/SudokuUtil.java:592-649 | the bars of the row lines stand under the joints of the separator lines and the corners of the outer border |
| PmGrid.PMLinesWidth | src/sudoku/SudokuUtil.java:437-461 | after padding, every line has the same width, `9m + 26` plus the separator |
| PmGrid.Pad | src/sudoku/SudokuUtil.java:438-442 | a padded cell keeps its text, is followed by spaces only, and is `width` long unless it was already longer |
| PmGrid.MaxLengthIsMax | src/sudoku/SudokuUtil.java:431-433 | the tracked maximum bounds every list and is reached by one, or is 0 when there is none |
| PmGrid.KeptMembers | src/sudoku/SudokuUtil.java:425-434 | exactly the fields that are non-empty and start with a digit are stored |
| PmGrid.KeptCandidates | src/sudoku/SudokuUtil.java:425-434 | there are no more stored lists than fields, and each starts with a digit |
| PmGrid.KeptAppend | src/sudoku/SudokuUtil.java:424-435 | the selection of fields distributes over concatenation |
| Text.JavaSplit | src/sudoku/SudokuUtil.java:421 | `split(" ")` yields fields that contain no space |
| Text.DropTrailingEmpty | src/sudoku/SudokuUtil.java:421 | `split` keeps a prefix of the fields, drops only empty ones, and ends in a non-empty one |
| Text.JoinSplitAll | src/sudoku/SudokuUtil.java:421 | joining the fields between spaces with single spaces gives back the string |
| Text.SplitAllAppend | src/sudoku/SudokuUtil.java:421 | a space splits a string into the fields before it and the fields after it |
| Text.LastIndexOf | src/sudoku/SudokuUtil.java:499 | `lastIndexOf('.')` is the last position of a dot, or -1, with no dot after it |
| PmGridFields.TokensAreFields | src/sudoku/SudokuUtil.java:421-435 | the lists stored from a string are its space-separated fields that start with a digit |
| PmGridFields.PMGridFields | src/sudoku/SudokuUtil.java:406-462 | splitting the grid's output yields exactly the candidate lists it was built from, when the separator has no space |
| PmGridFields.PMGridIdempotent | src/sudoku/SudokuUtil.java:406-462 | formatting the output again gives the same output |
| LookAndFeel.SimpleName | src/sudoku/SudokuUtil.java:499 | the class name without its package: the text after the last dot (a dot-free suffix preceded by a dot), or the whole name when it has no dot |
| LookAndFeel.FirstMatch | src/sudoku/SudokuUtil.java:499-512 | the first registry entry whose class name is the stored one or ends with its simple name, or none when no entry does |
| LookAndFeel.ScanRegistry | src/sudoku/SudokuUtil.java:498-512 | the scan finds an entry exactly when one matches, and yields the class name of the first match; otherwise the stored name is kept |
| LookAndFeel.Session.ResolveLookAndFeel | src/sudoku/SudokuUtil.java:494-522 | the class name becomes `Resolve`'s choice; the preference and the log of `setLaf` calls change exactly by `Resolve`'s write; the font options are untouched |
| LookAndFeel.ResolveChoosesInstalledOrDefault | src/sudoku/SudokuUtil.java:494-522 | the chosen class is either the system default (writing "") or an installed entry that matches the stored name; a write stores "" or the chosen class |
| LookAndFeel.ResolveFallsBack | src/sudoku/SudokuUtil.java:514-517 | an empty stored name, or one that nothing matches, selects the system default and writes "" |
| LookAndFeel.ResolveInstalled | src/sudoku/SudokuUtil.java:500-503 | an installed stored name, with no earlier match, is kept and not written back |
| LookAndFeel.EarlierSuffixWins | src/sudoku/SudokuUtil.java:500-510 | an earlier entry with the same simple name beats a later exact entry, and its class name is written back |
| LookAndFeel.ResolveIdempotent | src/sudoku/SudokuUtil.java:494-522 | resolving again after the correction chooses the same class name and stores nothing new |
| LookAndFeel.SimpleNameKeepsSuffix | src/sudoku/SudokuUtil.java:499 | a class name ending with a dot-free simple name has a simple name ending with it |
| LookAndFeel.NameOf | src/sudoku/SudokuUtil.java:281-292 | none exactly when no entry has the class name; otherwise the display name of the first entry that has it |
| LookAndFeel.Session.LookAndFeelName | src/sudoku/SudokuUtil.java:281-292 | the loop returns the display name of the first entry with the current class name, or null |
| LookAndFeel.Session.NimbusLookAndFeel | src/sudoku/SudokuUtil.java:305-330 | an instance exactly when an entry is named "Nimbus" and can be created; without an instance the class name becomes the system default |
| LookAndFeel.Session.NonNimbusLookAndFeel | src/sudoku/SudokuUtil.java:337-349 | an instance of the display name of the current class name when it can be created; none when the name is null or creation fails |
| LookAndFeel.Session.ObtainLookAndFeel | src/sudoku/SudokuUtil.java:524-536 | Nimbus when the class name mentions it and Nimbus is available; otherwise the non-Nimbus instance, for the class name as it then stands |
| LookAndFeel.Options.SetLaf | src/sudoku/SudokuUtil.java:516 | the preference is the new value, the call is logged, and the other options are unchanged |
| FontSize.NimbusRescaled | src/sudoku/SudokuUtil.java:130-146 | throws `ClassCast` exactly when "defaultFont" holds no font; otherwise only "defaultFont" may change, it gets the custom size, its name and style are kept, and a font of another size is replaced by a font resource |
| FontSize.NonNimbusRescaled | src/sudoku/SudokuUtil.java:156-184 | same keys; an entry changes exactly when it is a font resource of another size, and becomes a resource of the custom size with the same name and style; afterwards every resource has the custom size |
| FontSize.UIDefaults.ChangeFontSizeForNimbus | src/sudoku/SudokuUtil.java:130-146 | the table becomes `NimbusRescaled`'s, or the cast error is returned and the table is left as it was |
| FontSize.UIDefaults.ChangeFontSizeForNonNimbus | src/sudoku/SudokuUtil.java:159-182 | the loop over the keys leaves exactly `NonNimbusRescaled` of the old table |
| FontSize.NonNimbusNoOp | src/sudoku/SudokuUtil.java:156-184 | the rewrite changes nothing exactly when every font resource already has the size; rewriting twice is rewriting once |
| FontSize.NimbusNoOp | src/sudoku/SudokuUtil.java:130-146 | the rewrite changes nothing exactly when "defaultFont" is absent or a font of the size; rewriting twice is rewriting once |
| FontSize.StrategyFor | src/sudoku/SudokuUtil.java:544-555 | the Nimbus rewrite exactly when the class name contains "Nimbus" and a custom size is wanted; the other exactly when it does not contain it and a custom size is wanted; default sizes exactly otherwise |
| FontSize.ChangeFontSize | src/sudoku/SudokuUtil.java:541-555 | runs the rewrite `StrategyFor` selects on the table it concerns and leaves the other table unchanged |

## Left out

- Logging (`Logger` calls) is left out. It has no effect on the results.
- Installing the look and feel, `UIManager.setLookAndFeel(lookAndFeel)` at line 549, is left out because it is Swing state. `ChangeFontSize` models the two rewrites around it.
- The catch at line 556 is left out. Errors are returned as values instead: the Nimbus cast error from `ChangeFontSize`, and "no instance" from the obtain methods. A null look and feel handed to the Nimbus rewrite, and an exception thrown while the look and feel is installed, are not modelled.
- Which look and feels `UIManager.createLookAndFeel` can instantiate is the parameter `creatable`. The instance is identified only by its display name.
- `UIManager.put` writes a layer above the look and feel's defaults. Here it updates the one table that `UIManager.get` reads.
- FontSize.UIDefaults.ChangeFontSizeForNonNimbus: visits the keys in an arbitrary set order rather than the `Hashtable` enumeration order, because no entry's rewrite depends on another's.
- ChangeFontSize: requires the look and feel's own table and `UIManager`'s table to be distinct objects. They are in the program, where the former belongs to a freshly created look and feel.
- Text.IsDigit: accepts only the ASCII digits, not every Unicode digit `Character.isDigit` accepts.
- Strings are sequences of characters, with no UTF-16 surrogate handling.
- PmGrid.PMGrid: Java's `int` arithmetic in `3 * maxLength + 7` is taken as unbounded. A list longer than about 700 million characters would overflow in the program.
- PmGrid.JointsAlign: the character at each cell's offset within a row line of the pencil-mark grid is not stated; only the bars, the joints and the widths are.
- The other members of `SudokuUtil` are not part of this model:
  - `adjustGraphicsForPrinting`, `getPrinterJob`, `getPageFormat` (printing);
  - `printFontDefaults` (debug output);
  - `getCandString`, `combinations`, `clearStepList`, `clearStepListWithNullify`.
