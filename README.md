# HUD-mask game recognition, modelled in Dafny

This project models the game-recognition step of the video game recogniser:

- `MainWindow::hudMaskDistanceCalculation` measures how far apart two 8-bit grayscale
  HUD masks are, even when their sizes differ.
- `MainWindow::findGame` scans the catalogued games and keeps the one whose stored
  mask is at the smallest signed distance from the mask extracted from the video.

Files and modules:

- `images.dfy`, module `GrayImages`:
  - A mask is a `GrayImage`: width, height and a packed row-major sequence of samples in 0..255.
  - `Remap` maps a coordinate proportionally onto another grid (`c * tgt / src`, truncated).
  - `Index` is the row-major buffer offset (`y * w + x`).
- `hud_mask.dfy`, module `HudMask`:
  - `Orient` chooses the primary grid: the wider image, and the first argument when the widths are equal.
  - `Term`, `RowSum`/`RowsSum` and `ColumnSum`/`ColumnsSum` give the signed per-pixel differences (secondary minus primary) and their sums in buffer order and in scan order.
  - `Distance` is the exact specification: the signed total divided by the primary area, as a `real`.
  - `HudMaskDistanceCalculation` is the nested column/row loop, proved equal to `Distance`.
- `find_game.dfy`, module `GameMatch`:
  - The catalogue is a `map` from names to `Game` records.
  - `FindGame` is the argmin loop. It starts from the largest single-precision float and updates only on a strictly smaller distance.
  - `IsFirstMinimum` states what that loop computes.

The metric is a signed mean difference, not a mean absolute difference, and the model keeps it that way:
- Two images of the same size compare pixel to pixel (`SameSizeComparesSamePositions`).
- Swapping two such images flips the sign of the result (`SameSizeAntisymmetric`).
- Differences of opposite sign cancel (`OppositeDifferencesCancel`).
- When the widths differ, the argument order does not matter (`UnequalWidthsOrderFree`).
- When the widths are equal but the heights differ, the result is neither symmetric nor antisymmetric. A 1x1 image of 0 against a 1x2 image of 0 and 100 gives 0, and the reverse order gives -50 (`EqualWidthsNeitherSymmetricNorAntisymmetric`).
- `findGame` keeps the smallest signed distance, not the smallest difference, so a mask darker than the query beats an identical one. A 2x2 query of 10s picks a catalogued 2x2 mask of 0s (distance -10) over an identical mask (distance 0) (`DarkerCandidateBeatsIdenticalMask`).

A 2x2 query of 10s against a 2x2 candidate of 50s gives +40. On equal widths the query stays primary (mainwindow.cpp:84), and each term is candidate minus query (mainwindow.cpp:109). The model follows this (`TensAgainstFifties`).

The coordinate helpers `fromIntCoordinate`, `toIntCoordinate` and `toPtrLocation` are not part of this model. The model assumes two things about them:
- The remap is exact integer proportion, `c * tgt / src`.
- The offset is row-major, `y * w + x`.

Under these assumptions, `Remap` always lands inside the target axis, so the model needs no clamp.

## Model

| member | source | states |
|---|---|---|
| `GrayImages.Remap` | interface/src/mainwindow.cpp:105-108 | a remapped coordinate always lies in `0 .. tgt-1`, and remapping between equal extents is the identity |
| `GrayImages.IndexInBounds` | interface/src/mainwindow.cpp:109 | the row-major offset of every pixel of a `w`-by-`h` grid is below `w*h`, so both buffer reads stay inside their buffers |
| `GrayImages.Index` | interface/src/mainwindow.cpp:109 | the row-major offset of a pixel inside the row decodes back to it: the quotient by the row width is the row and the remainder the column, so distinct pixels never share a sample |
| `HudMask.Orient` | interface/src/mainwindow.cpp:84-101 | the primary grid is at least as wide as the secondary, the pair is the two arguments, and equal widths keep `img1` primary |
| `HudMask.Distance` | interface/src/mainwindow.cpp:103-112 | the signed total over the primary grid divided by the primary area (not the secondary one) always lies in `-255 .. 255` |
| `HudMask.HudMaskDistanceCalculation` | interface/src/mainwindow.cpp:73-113 | the nested scan returns exactly `Distance`: the signed sum over every primary pixel of secondary-at-remap minus primary, divided by the primary area |
| `HudMask.SumOrderIrrelevant` | interface/src/mainwindow.cpp:103-111 | summing column after column (the loop order) gives the same total as row after row (buffer order) |
| `HudMask.SameSizeComparesSamePositions` | interface/src/mainwindow.cpp:105-109 | for images of equal size each pixel is compared with the pixel at the same position in the other image |
| `HudMask.SameSizeAntisymmetric` | interface/src/mainwindow.cpp:84-112 | for images of equal size, swapping the arguments negates the distance |
| `HudMask.IdenticalImagesAtDistanceZero` | interface/src/mainwindow.cpp:103-112 | an image is at distance exactly 0 from itself |
| `HudMask.UnequalWidthsOrderFree` | interface/src/mainwindow.cpp:84-101 | when the widths differ, the distance does not depend on the argument order |
| `HudMask.RowsSumBounds` | interface/src/mainwindow.cpp:103-111 | the signed total over the first `m` columns of the first `n` rows lies within `255*m*n` of zero |
| `HudMask.UniformDistance` | interface/src/mainwindow.cpp:103-112 | two uniform images of the same size are at distance exactly second value minus first value |
| `HudMask.TensAgainstFifties` | interface/src/mainwindow.cpp:109-112 | 2x2 10s against 2x2 50s gives 40, and the reverse comparison gives -40 |
| `HudMask.OppositeDifferencesCancel` | interface/src/mainwindow.cpp:109 | two different images whose differences cancel are at distance 0 |
| `HudMask.EqualWidthsNeitherSymmetricNorAntisymmetric` | interface/src/mainwindow.cpp:84-112 | with equal widths and different heights, the shorter-first comparison gives 0 and the taller-first one gives -50, so argument order changes more than the sign |
| `GameMatch.FindGame` | interface/src/mainwindow.cpp:194-214 | an empty list yields no game; a name missing from the catalogue aborts with the first such name; otherwise the result is the first game of minimal distance from the query, with that distance |
| `GameMatch.FirstMinimumUnique` | interface/src/mainwindow.cpp:209-213 | the first minimum is unique, so the winner is determined by the distances |
| `GameMatch.TieKeepsEarlier` | interface/src/mainwindow.cpp:209-213 | of two games at equal distance, the later one is never the winner |
| `GameMatch.EveryCandidateBeatsFloatMax` | interface/src/mainwindow.cpp:196 | every distance is below the initial best (the float maximum), so a non-empty list always yields a game |
| `GameMatch.IdenticalMaskScenario` | interface/src/mainwindow.cpp:194-214 | with "A" (same mask as the query) and "B" (50s) catalogued, "A" wins at distance 0 |
| `GameMatch.DarkerCandidateBeatsIdenticalMask` | interface/src/mainwindow.cpp:194-214 | with "A" (same mask as the query) and "C" (0s) catalogued against a query of 10s, "C" wins at distance -10: a darker mask beats an identical one |
| `GameMatch.SingleFarCandidateScenario` | interface/src/mainwindow.cpp:194-214 | with only "B" catalogued, "B" wins at distance 40 |

## Left out

- Database creation and opening, and the error message boxes (mainwindow.cpp:7-53): file and storage I/O.
- The file dialog, the video player and the analysis pipeline that produces the query mask (60-71, 139-159): video decoding and UI.
- Game submission and insertion into the database (161-179): a storage write.
- `eraseResults` and the yes/no/don't-know slots (115-137, 181-192): widget state only.
- Writing the winner into the line edits and spin box (216-219): `FindGame` returns the outcome instead.
- The `Database` class is not part of this model. The catalogue is a `map` from name to record, and the name list is a parameter. A name the map lacks is modelled as an abort (`LookupFailed`), since `findGame` catches nothing.
- The coordinate helpers `fromIntCoordinate`, `toIntCoordinate` and `toPtrLocation` are not part of this model. They are replaced by exact integer `Remap` and row-major `Index`, so the float normalisation inside the remap is not modelled.
- Float rounding: distances and `minDist` are exact `real`s. Two distances that differ as reals but round to the same float would tie in the program and not in the model.
- HudMask.HudMaskDistanceCalculation: does not model the 32-bit `int` accumulator or the `wI1*hI1` product overflowing. The loop invariant bounds the running `distance` by 255 times the pixels visited so far, and `RowsSumBounds` bounds the total by 255 times the area, so no wrap-around happens for areas up to 8,421,504 pixels.
- The `Game` class is not part of this model. A `Game` keeps only the fields `findGame` uses: name, mask, editor, description and year.
- QImage row padding in `bits()` and the `Q_ASSERT` on null pointers and pixel format: images are packed row-major sequences, and validity (positive width and height) is a precondition.
