# Poetry page: carousel, theme, music and lattice logic in Dafny

This project models the logic layer of a personal poetry web page. It covers
the parts of the page that are plain index tables, small state machines and
string rules. All DOM, canvas, audio and network plumbing is left out.

- **Poem carousel** of the main page (`js/script.js`):
  - the loaded poem list and the current index;
  - forward and back navigation, which wraps around (JavaScript `%` on an
    empty list gives NaN);
  - the render guard for an empty list;
  - the removal of the 通韵 rhyme annotation from titles.
- **Background controller** (`js/script.js`):
  - the random/fixed mode machine over `bgIndex` and `fixedBgIndex`;
  - the light/dark signal taken from the image's average colour. The
    0.299/0.587/0.114 luma rule is stated in integers as
    `299R + 587G + 114B < 128000`.
- **Update notice** (`js/script.js`):
  - the banner is shown only on the update day;
  - `YYYY-MM-DD` is reformatted to `Y年M月D日`, modelled through
    `split('-')` and `parseInt`.
- **Music player** (`js/script.js`):
  - the loop/shuffle mode, which is persisted and keeps `audio.loop` in step;
  - shuffle's rejection loop, which draws a track other than the current one.
- **Title easter egg** (`js/script.js`): five clicks, each within a second of
  the previous one, reveal the visitor counters.
- **Crystal-lattice animations** (`js/sc-lattice.js`, `js/bcc-lattice.js`,
  `js/fcc-lattice.js`, `js/hcp-lattice.js`):
  - the atom and bond tables, with coordinates in half-units;
  - the HCP tables, which are built by loops;
  - the colouring and theme palettes;
  - the alpha clamp;
  - the per-frame spin;
  - the simple-cubic cell's drag / settle / auto-rotate machine and its
    depth-sorted draw order.
- **Stand-alone page** (root `script.js`):
  - a fixed table of five poems;
  - the title/note derivation;
  - navigation from a random start.

## Modelling choices

- **Randomness.**
  - A single `Math.random()` draw is a nondeterministic choice (`:|`).
  - Shuffle's `do…while` loop reads an explicit stream of draws. The
    stream is required to hold one accepted draw, which is true with
    probability one.
- **Clocks.** The clock (`Date`) and "today" are parameters.
- **Timers.** Each timer expiry is an explicit event.
- **Depth.** The projected depth of each atom is an input. It comes from
  trigonometric rotation and projection.
- **Reals.** Real quantities are exact reals.

Modules:

- `Wrappers`: `Option`.
- `JsIndex`: JavaScript index arithmetic.
- `TongYun`: the title annotation.
- `Carousel`, `Background`, `UpdateNotice`, `Music`, `SecretClicks`: the
  parts of `js/script.js`.
- `LatticeCommon`: shared cube geometry, the alpha clamp and the stable
  depth sort.
- `ScLattice`, `BccLattice`, `FccLattice`, `HcpLattice`: one per lattice
  file.
- `LegacyPage`: root `script.js`.

## Model

| member | source | states |
|---|---|---|
| JsIndex.Rem | js/script.js:372 | JavaScript `%`: NaN exactly for a NaN operand or a zero divisor; otherwise below the divisor in size, with the dividend's sign, and equal to Euclidean `%` for non-negative operands |
| JsIndex.NavigationWraps | js/script.js:371-380 | on a list of n ≥ 1 poems, next moves to i+1 and wraps from n-1 to 0, previous moves to i-1 and wraps from 0 to n-1, and both stay in [0, n) |
| JsIndex.NextPrevInverse | js/script.js:371-380 | next then previous, and previous then next, return to the starting index |
| JsIndex.PrevFromFirst | js/script.js:378 | previous from index 0 gives n-1 |
| JsIndex.NextIndex | js/script.js:372 | `(i+1) % n` is NaN exactly when the index is NaN or the list is empty, and an index in [0, n) stays in [0, n) |
| JsIndex.PrevIndex | js/script.js:378 | `(i-1+n) % n` is NaN exactly when the index is NaN or the list is empty, and an index in [0, n) stays in [0, n) |
| TongYun.FindFrom | js/script.js:339-340 | the result, when present, is a match of `[(（]通韵[)）]` at or after the start with no match before it; absent means no match from the start on |
| TongYun.Strip | js/script.js:338-342 | only the leftmost match is cut out (prefix plus suffix); an annotated title gets exactly 4 characters shorter; a title without a match is returned unchanged |
| TongYun.OnlyFirstRemoved | js/script.js:339-341 | the pattern is not global: a second annotation after the first survives, shifted left by 4 |
| Carousel.ViewOf | js/script.js:338-363 | the card shows the stripped title (4 characters shorter when annotated, otherwise unchanged), exactly the content lines, and highlights the notes button iff the poem has notes |
| Carousel.PoemCarousel.constructor | js/script.js:1-2 | start-up: no poems, index 0, nothing shown |
| Carousel.PoemCarousel.Load | js/script.js:256-266 | the list is replaced; a non-empty list gets a random start index in range and that poem is shown; an empty list gets index 0 and nothing is rendered |
| Carousel.PoemCarousel.RenderPoem | js/script.js:327-369 | an empty list changes nothing; otherwise the card shows the poem at the index |
| Carousel.PoemCarousel.NextPoem | js/script.js:371-374 | the index becomes `(i+1) % n` as JavaScript computes it: in range and shown for n > 0, NaN with nothing rendered for n = 0 |
| Carousel.PoemCarousel.PrevPoem | js/script.js:376-380 | the index becomes `(i-1+n) % n`: the previous poem, or the last one from 0, which is then shown; NaN with nothing rendered for n = 0 |
| Background.Analyze | js/script.js:49-88 | a load error signals dark with brightness 0; a loaded image is dark iff 299R+587G+114B < 128000; brightness is the weighted channel sum, within [0, 255] |
| Background.WhiteIsLightBlackIsDark | js/script.js:66-67 | white is light and black is dark |
| Background.GreyThreshold | js/script.js:66-67 | a grey image is dark iff its level is below 128 |
| Background.DarkIsMonotone | js/script.js:66-67 | darkening any channel never turns a dark image light |
| Background.BackgroundController.constructor | js/script.js:20-24 | random mode, a random first background in [0, 12) applied once, fixed index 0 |
| Background.BackgroundController.ChangeBackground | js/script.js:91-95 | does nothing in fixed mode; in random mode sets `bgIndex` to some value in [0, 12) and applies it |
| Background.BackgroundController.ToggleBgMode | js/script.js:98-113 | random→fixed pins `fixedBgIndex = bgIndex` without reloading; fixed→random keeps the pinned index and immediately draws and applies a new background |
| Background.BackgroundController.SelectBackground | js/script.js:116-124 | fixed mode with `bgIndex = fixedBgIndex = index`, and that background applied |
| UpdateNotice.Split | js/script.js:235 | `split` gives at least one piece, no piece holds the separator, and joining the pieces gives back the input |
| UpdateNotice.SplitJoin | js/script.js:235 | splitting undoes joining of separator-free pieces |
| UpdateNotice.SplitPiece | js/script.js:235 | a separator-free string splits into itself |
| UpdateNotice.SplitAfterPiece | js/script.js:235 | a separator-free piece followed by the separator becomes the first part |
| UpdateNotice.LeadingDigits | js/script.js:236 | the longest digit prefix that `parseInt` reads: all digits, a prefix of the input, followed by a non-digit or the end |
| UpdateNotice.StripZeros | js/script.js:236 | a digit string without its leading zeros: a non-empty suffix whose first digit is not 0 unless it is the lone digit, preceded only by zeros |
| UpdateNotice.StripZerosKeepsValue | js/script.js:236 | dropping leading zeros keeps the number the digits denote |
| UpdateNotice.IntText | js/script.js:236 | `${parseInt(s)}` is NaN or an integer's text (digits without leading zeros, minus only before a non-zero value); NaN when the text starts with neither sign nor digit, a number when it starts with a digit, negative only after a leading minus |
| UpdateNotice.IntTextOfDigits | js/script.js:236 | `${parseInt(d)}` of plain digits prints them without leading zeros |
| UpdateNotice.Part | js/script.js:235-236 | `dateParts[k]` is field k when present; a missing field is `undefined`, which `parseInt` prints as NaN |
| UpdateNotice.FormatParts | js/script.js:236 | the text starts with the first field verbatim followed by 年 and ends with 日; with fewer than three fields it ends in NaN日 |
| UpdateNotice.FormatDate | js/script.js:235-236 | a date without a dash keeps the whole text as its year and prints month and day as NaN |
| UpdateNotice.SplitDigitDate | js/script.js:235 | a `Y-M-D` date with dash-free fields splits into exactly its three fields |
| UpdateNotice.FormatDigitDate | js/script.js:233-236 | a digit date `Y-M-D` reads `Y年M月D日`: the year is copied and the month and day lose their leading zeros |
| UpdateNotice.FormatExample | js/script.js:233 | 2026-01-08 reads 2026年1月8日 |
| UpdateNotice.MissingDayIsNaN | js/script.js:235-236 | a date without a day field prints the day as NaN |
| UpdateNotice.NoticeText | js/script.js:231-243 | collapsed: 新作上线; expanded: always ends with 新作： and the newest work, preceded by the formatted date and `<br>` exactly when the date has a dash |
| UpdateNotice.Notice.constructor | js/script.js:252-259 | a missing date or work reads as ""; the banner is shown iff the date is non-empty and equals today; the text starts collapsed |
| UpdateNotice.Notice.CheckUpdateNotice | js/script.js:214-223 | the banner is shown iff the date is non-empty and equals today |
| UpdateNotice.Notice.ToggleUpdateNotice | js/script.js:228-244 | flips expansion; collapsed shows 新作上线; expanded shows the formatted date (only when the date has a dash) and the newest work |
| Music.Toggled | js/script.js:551-561 | the new mode is loop or shuffle, and it is shuffle exactly when the old mode was loop |
| Music.InitialMode | js/script.js:568 | a missing or empty stored mode gives shuffle; any other stored value is kept |
| Music.ToggleTwice | js/script.js:547-563 | toggling twice restores loop or shuffle |
| Music.ToggleTwiceForeign | js/script.js:551-561 | an unexpected stored value becomes loop, then shuffle |
| Music.LastActive | js/script.js:598-601 | the last highlighted entry, or -1: highlighted itself and with no highlighted entry after it |
| Music.FindActive | js/script.js:598-601 | the `forEach` scan returns the last highlighted entry, or -1 |
| Music.Draw | js/script.js:606 | `Math.floor(Math.random() * n)` lies in [0, n) for n > 0 and is 0 for n = 0 |
| Music.Rejected | js/script.js:607 | a draw is rejected only when it repeats the current index and there are two or more tracks; an accepted draw then differs from the current index |
| Music.PickNext | js/script.js:604-607 | the loop returns the first accepted draw; every earlier draw was rejected; with more than one track the result differs from the current one and is in range |
| Music.Player.constructor | js/script.js:566-581 | the first track is the source; the mode is the stored one or shuffle; `audio.loop` is on iff the mode is not shuffle |
| Music.Player.TogglePlayMode | js/script.js:547-563 | the mode alternates loop↔shuffle, `audio.loop == (playMode == 'loop')`, and the new mode is stored |
| Music.Player.PlayRandomSong | js/script.js:592-616 | with tracks, a track is loaded, it differs from the previously highlighted one when there are two or more tracks, and exactly that entry is highlighted afterwards; with no tracks nothing changes |
| Music.Player.OnEnded | js/script.js:584-588 | the track moves on exactly when the mode is shuffle and the playlist is not empty; it then loads `sources[next]`, highlights exactly that entry, and with two or more tracks `next` is not the previously highlighted one; otherwise (loop mode, or the empty list on which `playRandomSong` throws) highlight and source are unchanged |
| SecretClicks.Click | js/script.js:695-708 | a click records its time; a gap over 1000 ms restarts the count at 1; the click reveals iff it comes within 1000 ms and the count was 4, and then the count resets to 0 |
| SecretClicks.ClickKeepsCountInRange | js/script.js:699-708 | the count stays in 0..4 |
| SecretClicks.FiveQuickClicksReveal | js/script.js:699-708 | after a pause, five clicks each within a second reveal on the fifth click and not before, leaving count 0 |
| SecretClicks.RevealNeedsQuickRun | js/script.js:699-708 | a revealing click and the three before it within the run each followed their predecessor by at most 1000 ms |
| SecretClicks.CountAfterClickNeedsGap | js/script.js:699-701 | a reveal within the first four clicks of a run needs its first click to come within a second of the previous click |
| SecretClicks.RevealCarriedCount | js/script.js:699-708 | a reveal at click k of a run needs a count of at least 4-k carried in |
| SecretClicks.TitleClicks.constructor | js/script.js:692-693 | count and last click time start at 0 |
| SecretClicks.TitleClicks.OnClick | js/script.js:695-708 | the handler's new count, time and reveal are those of Click |
| LatticeCommon.CubeCorners | js/sc-lattice.js:52-55 | the corner table has eight entries |
| LatticeCommon.CornersAreTheCube | js/sc-lattice.js:52-55 | the eight listed points are distinct corners of the cube and every corner is listed |
| LatticeCommon.Differences | js/sc-lattice.js:58-65 | the number of differing coordinates is at most 3 and is 0 iff the points are equal |
| LatticeCommon.Centred | js/fcc-lattice.js:106 | centring subtracts half an edge from each coordinate |
| LatticeCommon.Clamp | js/bcc-lattice.js:115 | `Math.max(0.2, Math.min(1, a))` lies in [0.2, 1], is the identity inside, 0.2 below and 1 above |
| LatticeCommon.ClampMonotone | js/hcp-lattice.js:190 | clamping preserves the order of two alphas |
| LatticeCommon.Indices | js/sc-lattice.js:192-193 | the index list 0..n-1 |
| LatticeCommon.Insert | js/sc-lattice.js:173-177 | inserting into a depth-sorted order keeps it sorted and adds exactly the one index |
| LatticeCommon.SortBy | js/sc-lattice.js:173-177 | the comparator sort returns a rearrangement of its input with nondecreasing key |
| LatticeCommon.MeanDepths | js/sc-lattice.js:174-175 | one key per bond: the mean depth of its two ends |
| LatticeCommon.DrawOrderIsPermutation | js/sc-lattice.js:192-194 | the sorted order lists each index 0..n-1 exactly once, with nondecreasing key (smallest z first) |
| ScLattice.Atoms | js/sc-lattice.js:52-55 | eight atoms, each a corner of the cube, no two alike |
| ScLattice.Bonds | js/sc-lattice.js:58-65 | twelve bonds, every index naming an atom of the table |
| ScLattice.BondsAreCubeEdges | js/sc-lattice.js:58-65 | each bond joins corners differing in one coordinate; no two bonds share a segment; every cube edge is listed |
| ScLattice.EdgeSlot | js/sc-lattice.js:58-65 | each cube edge is at a definite position of the bond table |
| ScLattice.BondDepths | js/sc-lattice.js:174-175 | twelve bond keys |
| ScLattice.AtomDrawOrder | js/sc-lattice.js:192-194 | atoms are painted each exactly once, smallest projected z first (with scale 300/(300+z), the largest-drawn atom first) |
| ScLattice.BondDrawOrder | js/sc-lattice.js:173-177 | bonds are painted each exactly once, smallest mean endpoint z first |
| ScLattice.ThemePalette | js/sc-lattice.js:29-38 | the dark palette iff the background is dark, otherwise the light one |
| ScLattice.ScAnimation.constructor | js/sc-lattice.js:67-78 | both angles 0, not dragging, no settle timer, dark palette |
| ScLattice.ScAnimation.StartDrag | js/sc-lattice.js:90-100 | dragging starts at the pointer, the settle timer is cancelled, the angles are kept |
| ScLattice.ScAnimation.Drag | js/sc-lattice.js:102-115 | nothing changes when not dragging; otherwise each angle turns by 0.01 rad per pixel since the last event, so the rotation since the drag began is 0.01 × the net displacement |
| ScLattice.ScAnimation.EndDrag | js/sc-lattice.js:117-125 | nothing changes when not dragging; otherwise the drag ends and the settle timer is armed |
| ScLattice.ScAnimation.ResumeTimerExpires | js/sc-lattice.js:122-124 | the armed timer fires and is cleared |
| ScLattice.ScAnimation.Frame | js/sc-lattice.js:227-229 | `angleY` advances by 0.006 only when neither dragging nor settling, and is kept otherwise |
| ScLattice.ScAnimation.OnThemeChange | js/sc-lattice.js:29-38 | the palette follows the theme event |
| ScLattice.DragGesture | js/sc-lattice.js:90-125 | a two-move example gesture (press, move, frame, move, release) turns the cell by 0.01 × the net displacement, with no auto-rotation in between, and leaves the timer armed |
| BccLattice.Atoms | js/bcc-lattice.js:40-46 | nine atoms: the eight corners in table order, then the body centre at index 8 |
| BccLattice.Bonds | js/bcc-lattice.js:49-58 | twenty bonds, every index naming an atom of the table |
| BccLattice.CentreLinks | js/bcc-lattice.js:50-51 | the first 8 bonds link the centre to corner k in order; no later bond touches the centre |
| BccLattice.FrameIsCubeEdges | js/bcc-lattice.js:53-57 | the other 12 bonds are exactly the cube edges |
| BccLattice.FrameSlot | js/bcc-lattice.js:53-57 | each cube edge is at a definite position among the frame bonds |
| BccLattice.Alpha | js/bcc-lattice.js:110-115 | the drawn alpha lies in [0.2, 1] |
| BccLattice.AlphaMonotone | js/bcc-lattice.js:110-115 | nearer atoms are never fainter |
| BccLattice.AlphaNearlyConstant | js/bcc-lattice.js:77-115 | the depth term uses the unscaled coordinate, so within one edge of the centre alpha stays in [0.5975, 0.6025] and the clamp never acts |
| BccLattice.BccAnimation.constructor | js/bcc-lattice.js:60-61 | spin 0 and tilt 0.35 |
| BccLattice.BccAnimation.Frame | js/bcc-lattice.js:133 | each frame adds 0.006 to `angleY`; the tilt is a constant |
| FccLattice.Atoms | js/fcc-lattice.js:43-50 | fourteen atoms: the eight corners first, then six distinct face centres |
| FccLattice.Bonds | js/fcc-lattice.js:53-61 | twenty-four bonds, every index naming an atom of the table |
| FccLattice.BondsAreFaceLinks | js/fcc-lattice.js:53-61 | each bond joins a face centre (8..13) to a corner (0..7) on that face; no bond is listed twice; every such pair is listed |
| FccLattice.FaceSlot | js/fcc-lattice.js:53-61 | each face-to-corner link is at a definite position of the bond table |
| FccLattice.DegreeAppend | js/fcc-lattice.js:53-61 | bond counts add over concatenated bond lists |
| FccLattice.FaceDegree | js/fcc-lattice.js:55-60 | a face's four links touch the centre four times and each listed corner once |
| FccLattice.Degrees | js/fcc-lattice.js:53-61 | each face centre is in exactly 4 bonds and each corner in exactly 3 |
| FccLattice.AtomColor | js/fcc-lattice.js:138-139 | gold exactly for corner atoms, white exactly for face centres |
| FccLattice.CentredCell | js/fcc-lattice.js:106 | centring maps each coordinate into {-0.5, 0, 0.5}, and the centred cell is symmetric through the origin |
| FccLattice.MirrorSlot | js/fcc-lattice.js:43-50 | the atom opposite each atom is in the table |
| FccLattice.FccAnimation.constructor | js/fcc-lattice.js:63-64 | spin 0 and tilt 0.3 |
| FccLattice.FccAnimation.Frame | js/fcc-lattice.js:156 | each frame adds 0.005 to `angleY` and leaves `angleX` alone |
| HcpLattice.SiteAt | js/hcp-lattice.js:79-96 | entry 0 is the bottom centre, 1-6 the bottom ring, 7 the top centre, 8-13 the top ring, 14-16 the mid layer |
| HcpLattice.IndexOf | js/hcp-lattice.js:79-96 | every site has an index in the 17-atom table, and SiteAt maps the index back to it |
| HcpLattice.BuildSites | js/hcp-lattice.js:79-96 | the push loops produce exactly the 17 sites in table order |
| HcpLattice.Spokes | js/hcp-lattice.js:103-112 | one hexagon's loop pushes a spoke and a rim bond per vertex |
| HcpLattice.Verticals | js/hcp-lattice.js:116-118 | the vertical loop pushes `[i, i+7]` for i = 1..m |
| HcpLattice.SpokesStep | js/hcp-lattice.js:103-112 | each loop iteration appends its two bonds |
| HcpLattice.BuildBonds | js/hcp-lattice.js:100-118 | the three loops produce exactly the specified bond list |
| HcpLattice.HcpBonds | js/hcp-lattice.js:100-118 | thirty bonds, all between atoms 0-13 of the two hexagonal layers |
| HcpLattice.BondTable | js/hcp-lattice.js:100-118 | 30 bonds: 12 for the bottom hexagon, 12 for the top, 6 verticals `[k-23, k-16]` |
| HcpLattice.BondsInTable | js/hcp-lattice.js:93-118 | every bond index is in [0, 13], so within the 17-atom table, and mid-layer atoms 14-16 appear in no bond |
| HcpLattice.FrameSlot | js/hcp-lattice.js:100-118 | each frame edge is at a definite position of the bond table |
| HcpLattice.BondsJoinFrameEdges | js/hcp-lattice.js:100-118 | every bond is a spoke, a rim edge or a vertical edge |
| HcpLattice.FrameEdgesAreBonds | js/hcp-lattice.js:100-118 | every spoke, rim edge and vertical edge is a bond |
| HcpLattice.FrameBonds | js/hcp-lattice.js:103-118 | each centre bonds to its six ring atoms, the rings close with 6→1 and 13→8, and ring atom i joins i+7 |
| HcpLattice.BondsDistinct | js/hcp-lattice.js:100-118 | no two bonds join the same pair |
| HcpLattice.ThemePalette | js/hcp-lattice.js:32-45 | the dark palette iff the background is dark, otherwise the light one |
| HcpLattice.IsFrameVertex | js/hcp-lattice.js:177 | the index test holds exactly for the hexagon-vertex (ring) sites of the table |
| HcpLattice.AtomColor | js/hcp-lattice.js:177-178 | a ring site gets the palette's theme colour, a centre or mid-layer atom its secondary colour |
| HcpLattice.FrameVertexColouring | js/hcp-lattice.js:177-178 | atom i is a frame vertex iff it is a ring site; frame vertices get `atomColor` and all others `secondaryColor` |
| HcpLattice.Alpha | js/hcp-lattice.js:181-190 | the drawn alpha lies in [0.2, 1] |
| HcpLattice.AlphaProperties | js/hcp-lattice.js:181-190 | nearer atoms are never fainter, and within three cell edges of the centre the clamp does not act |
| HcpLattice.HcpAnimation.constructor | js/hcp-lattice.js:79-121 | the tables are built, spin 0, tilt 0.25, dark palette |
| HcpLattice.HcpAnimation.Frame | js/hcp-lattice.js:208 | each frame adds 0.007 to `angleY` |
| HcpLattice.HcpAnimation.OnThemeChange | js/hcp-lattice.js:32-45 | the palette follows the theme event |
| LegacyPage.DisplayNote | script.js:67-79 | the record's own note wins; otherwise an annotated title gives 注：通韵; the note is empty only for an unannotated poem without a note |
| LegacyPage.Render | script.js:66-98 | the title loses its first annotation (4 characters); the lines are kept in order; one note paragraph, holding the displayed note, follows them iff the poem has a note or an annotated title |
| LegacyPage.PoemTable | script.js:1-53 | five poems of four lines each, none with a note |
| LegacyPage.AnnotatedTitles | script.js:34 | only the fourth title carries the annotation, right after its first five characters |
| LegacyPage.RenderedTable | script.js:34 | 七律·纠缠(通韵) shows as 七律·纠缠 with the note 注：通韵 below its four lines; the other poems show unchanged titles and no note |
| LegacyPage.PoemPage.constructor | script.js:55 | index 0, nothing shown |
| LegacyPage.PoemPage.Start | script.js:188-191 | a random start index in range, whose poem is shown |
| LegacyPage.PoemPage.RenderPoem | script.js:57-103 | the card shows the poem at the index |
| LegacyPage.PoemPage.NextPoem | script.js:105-108 | the index becomes `(i+1) % 5` (the next poem, or the first after the last), and that poem is shown |
| LegacyPage.PoemPage.PrevPoem | script.js:110-114 | the index becomes `(i-1+5) % 5` (the previous poem, or the last from the first), and that poem is shown |

## Left out

- DOM, canvas and CSS effects are not modelled. This covers class toggles,
  `innerHTML`, fades, draw calls and `requestAnimationFrame`. A render is
  modelled as the view it produces.
- Render delays are not modelled: the 400 ms (main page) and 500 ms (root
  page) delay inside `renderPoem` is applied at once. Renders that overlap
  because of these delays are not modelled.
- Rotation, projection and perspective arithmetic (`rotateY`, `rotateX`,
  `project`, depth-scaled radii) is not modelled: it is trigonometric
  floating point. Depth is an input, and HCP positions are symbolic sites.
- IEEE rounding is not modelled: reals are exact, and the luma comparison is
  the integer-scaled one.
- `fetch` and JSON loading are modelled only as the list passed to `Load`
  and the fields passed to `Notice`'s constructor. Races between loads are
  out of scope.
- `localStorage` is a field. `audio.play()` and its promise are left out.
- The `CustomEvent` dispatch is left out; `Analyze` returns the event's
  payload.
- `Date`, `getBeijingDateString` and the five-minute background interval
  are left out. "Today" and click times are parameters; interval ticks are
  calls to `ChangeBackground`.
- The hover and long-press timers of the background list are left out.
- These handlers of `js/script.js` are outside the modelled core: the table
  of contents, the notes overlay, the theme selector, the keyboard and swipe
  shortcuts, the reading-mode toggle and `initMusic`'s click handlers.
- The dislocation, particle and poem-animation scripts are not part of this
  model. They are library calls and float physics.
- UpdateNotice.IntText: only the `parseInt` cases a date field reaches are
  modelled: an optional sign, then decimal digits. Leading whitespace, hex
  prefixes and numbers past 2^53 are not.
- Background.BackgroundController.SelectBackground: the list item's
  `data-index` is taken as an already parsed integer; its range is not
  checked, just as the source does not check it.
- Music.Player.PlayRandomSong: the shuffle loop is modelled only on a draw
  stream that holds an accepted draw. A stream of only rejected draws would
  loop forever, which happens with probability zero.
- Music.Player.OnEnded: in shuffle mode it carries the same requirement of
  a draw stream with an accepted draw; loop mode needs no draws.
- The BCC, FCC and HCP cells sort their atoms by depth with the same
  comparator sort as the simple-cubic cell. Their draw orders are not
  restated per lattice.
- LatticeCommon.SortBy: the stability of JavaScript's sort (ties keep their
  order) is built into the insertion sort but not stated as a contract.
- FccLattice: the FCC depth alpha is not modelled. It is drawn without a
  clamp, and its value comes from the projection.
- HcpLattice.AlphaProperties: for HCP the depth is scaled by the cell size
  before the alpha is taken; the lemma takes that scaled depth as its input.
