# A verified model of the CCTV terminal's cores

The repository is the software of a train CCTV terminal: FLTK screens around a handful of small
stateful cores. This project models those cores in Dafny and proves what they keep over every run,
every input and every interleaving. `dafny verify dfyconfig.toml` checks all of it.

* **Playback** (`Playback.dfy`, `PlaybackOwnership.dfy`, `PlaybackRuns.dfy`, `PlaybackRefusals.dfy`,
  `PlaybackScreens.dfy`, `PlaybackBackground.dfy`, `PlaybackIcons.dfy`, `PlaybackController.dfy`).
  The callbacks of `CCTVWid.cxx` that create, move and destroy media handles, as a class over the
  same arrays and globals, each method proved equal to a function on states; about those functions
  the ownership ledger and the convergence of the screen are proved for every sequence of callbacks,
  and for each callback which picture it brings up, what it prepares or puts away in the background, and
  what an alarm icon asks for and brings back.
  The media player is an oracle that may refuse any call.
* **Alarms and carousels** (`CameraGrid.dfy`, `Carousel.dfy`, `FourCarousel.dfy`, `Alarms.dfy`,
  `PaneAssignment.dfy`). The camera grid, the two carousels over it, the scan that collects alarming
  cameras and their stable assignment to the four panes.
* **MD5** (`Rfc1321.dfy`, `ByteBuffers.dfy`, `Md5Rsa.dfy`, `Md5Plumb.dfy`). RFC 1321 as a reference
  (sections 3.1 to 3.5) and the two implementations in the repository, both proved to give its digest.
  The source types `UINT4` and `u32` are modelled as 32-bit words.
* **Messages** (`Framing.dfy`, `Crc8.dfy`). The receive and leftover buffers of the NVR framing loop under
  any fragmentation, and the sender; the CRC table of the broadcast settings as a polynomial remainder.
* **Frame buffers** (`LinkedQueue.dfy`, `FrameBuffers.dfy`, `TiledLayout.dfy`). The free stack and the
  size-keyed queue under all interleavings of their locked sections, and where planes lie in memory.
* **Display** (`Mailbox.dfy`, `ScreenFill.dfy`). The two-slot hand-off between decoder and display
  thread, and the black rectangle in a planar 4:2:0 buffer.
* **Packets, parameters, log** (`PacketQueue.dfy`, `TextLines.dfy`, `IniFile.dfy`,
  `IniOpenEnd.dfy`, `EventLog.dfy`); `Common.dfy` has what several modules use.

Where a property is false of the code, a lemma says exactly when it holds:

* `MD5_Update` compares `i + 63` with the length in 32 bits. The comparison is exact if and only if
  nothing is buffered or the buffered bytes and the input together stay below 2^32
  (`Md5Rsa.GuardExactness`).
* A frame sent by `PMSG_SendPmsgData` decodes to itself if and only if the command fits in a byte and
  the payload in 1014 bytes (`Framing.SentDecodes`). Every sequence of
  frames on a new connection is delivered as sent if and only if nothing is left over from the last one
  (`Framing.NextConnection`); a leftover is completed to one message with what comes first
  (`Framing.Swallowed`).
* The monitor screen's back button loses a handle if and only if it comes while a single picture is up
  over the four panes and still asked for; the screens keep that from happening
  (`PlaybackRuns.LeaveMoniExactly`).
* Two or more alarms bring up the four panes, with no single picture over them, if and only if no switch
  to the single style is pending and, in the four-pane view, no single picture is asked for or the panes
  have to change (`PlaybackRuns.AlarmsBringPanes`); they do not have to if and only if they show the
  alarms already (`PaneAssignment.FreshedExactly`).
* A lone alarm, an alarm icon, or a camera button over the single style or during an alarm, brings up its
  camera if and only if no switch to the four panes is pending; a camera button over the panes brings up
  its page, and the end of the alarms the first page, if and only if no switch to the single style is
  (`PlaybackScreens.LoneAlarmShows`, `PlaybackScreens.IconShows`, `PlaybackScreens.CameraButtonShows`,
  `PlaybackScreens.NoAlarmShows`).
* A camera chosen from the grid, or left in the single style for the four panes, is on the page that
  comes up if and only if no other camera displaces it (`PlaybackScreens.CameraButtonShows`,
  `PlaybackScreens.FourButtonShows`).
* The four-pane carousel shows a camera, and then within one round, if and only if no other camera
  displaces it and no empty page lies between the page it starts from, or page 0 if it has to turn round,
  and the camera's own (`FourCarousel.ComesUpExactly`); on a grid of 28 cameras
  that leaves group 1 empty a carousel from page 0 never gets to group 2 (`FourCarousel.CutOff`).
* The 24 icons of open doors, and the 24 of jammed ones, suffice if and only if the distinct cameras that
  watch those doors and the number of those doors without a camera are together at most 24
  (`Alarms.DoorIconsCounted`); up to 48 icons can be needed, even if no door has a camera
  (`Alarms.DoorIconsOverflow`). The alarm list itself always fits.
* In the field map the two luma fields hold the samples unless these are one more than a multiple of 8192
  (`TiledLayout.Sizes`).
* `tiled_framebuf_base` gives the words of `tiled_framebuf_alloc` for another chroma format if and only
  if the fields are not kept apart or the chroma planes round up alike (`TiledLayout.BaseAgrees`).
* A frame sent to the display with physical address 0 is never shown nor released, and no other frame
  is forgotten (`Mailbox.EveryFrameAccounted`).
* The rows painted for a rectangle stay in their planes if and only if the screen height is even, or the
  rectangle has no chroma, stays off the last row, or ends within a quarter of the width in chroma samples
  (`ScreenFill.FitsExactly`); its chroma covers its blocks if and only if it is empty or its left edge and
  width are even (`ScreenFill.TouchedIsCovered`).
* Writing a parameter puts it under another group if and only if the line read there has a line of the
  written group before it with no line of the key in between or, where there was none to read, a line is
  added at the end and that group has been seen by then (`IniFile.SameKeyElsewhere`).
* What is added to a file without a newline at its end runs on from the last line; it is read back if and
  only if the two happen to make a line of the key, cut off by no more than its newline, or of the group
  added, with nothing in its rest that stands in for the parameter (`IniOpenEnd.WriteAtOpenEnd`). What is
  rewritten in place is always found; it is read back as it was written if and only if the caller's buffer
  held no longer string before or, for a value cut off to 255 characters with its key, ended in what was cut
  off (`IniFile.ValueBackExactly`).
* The alarms of one camera count as a lone alarm's, whose picture is kept for its icon, if and only if a PECU
  unit, a door or a jam is among them or exactly one smoke detector is (`PlaybackIcons.LoneAlarmExactly`).
* When two or more cameras alarm, the first takes pane 0 from an alarming camera if and only if all four
  panes keep alarming cameras and it is not one of them (`PaneAssignment.FirstAlarmTakesPane`).
* The count of log lines falls behind the file by the newlines in the descriptions written since the start,
  so it is right if and only if there were none (`EventLog.CountMisses`).
* A log entry of type "other" is written, and found again, as a system entry (`EventLog.SearchFinds`).

Plain `char` is taken as unsigned, as compilers for the ARM target have it: camera -1 stored in the array of
cameras with a door icon reads back as 255.

Where code and comments disagree the code is followed: `strstrim` is documented to drop spaces but drops
character 20; the log comment speaks of deleting 100 entries where 1000 are deleted; `MD5Final` of
`cctv/rtsp/md5.c` means to clear its context but clears only as many bytes as a pointer has.

## Model

| member | source | states |
|---|---|---|
| `CameraGrid.GetVideoIdxAccordBtnPose` | cctv/state/state.c:765-780 | the search finds the first camera at a grid place, -1 outside the grid or where there is none |
| `CameraGrid.LookupInverts` | cctv/state/state.c:765-793 | with distinct places the two lookups are inverse |
| `Carousel.NextOccupied` | cctv/CCTV/CCTVWid.cxx:222-240 | the first occupied place from a place on, all places before it being empty |
| `Carousel.GetNextSingleVideo` | cctv/CCTV/CCTVWid.cxx:201-253 | the two-pass search is the cyclic successor in (group, position) order |
| `Carousel.ScanRows` | cctv/CCTV/CCTVWid.cxx:222-240 | the inner loops stop at the first occupied place from the start on, if there is one |
| `Carousel.StepRaisesRank` | cctv/CCTV/CCTVWid.cxx:201-253 | one step goes to the camera of the next rank, cyclically |
| `Carousel.EveryCameraOnce` | cctv/CCTV/CCTVWid.cxx:201-253 | from any camera the carousel is back after as many steps as there are cameras and has shown each exactly once |
| `FourCarousel.GetNextFourVideo` | cctv/CCTV/CCTVWid.cxx:155-199 | the page after the one on screen, found through the last pane in use |
| `FourCarousel.FillPage` | cctv/CCTV/CCTVWid.cxx:190-197 | the four cameras of a page, with groups 0 and 7 merged for 28 cameras |
| `FourCarousel.NextPage` | cctv/CCTV/CCTVWid.cxx:155-199 | from a page the carousel goes to the next one, from an empty page to the first |
| `FourCarousel.PageShows` | cctv/CCTV/CCTVWid.cxx:190-197 | a page shows exactly its own cameras that are not displaced |
| `FourCarousel.ComesUpExactly` | cctv/CCTV/CCTVWid.cxx:155-199 | from any page, a camera comes up, and then within one round, if and only if nothing displaces it and no empty page lies on the way to its own |
| `FourCarousel.EveryPageOnce` | cctv/CCTV/CCTVWid.cxx:155-199 | without empty pages one round is back at its page and shows a camera if and only if it is not displaced |
| `FourCarousel.CutOff` | cctv/CCTV/CCTVWid.cxx:155-199 | a grid of 28 cameras with a camera that nothing displaces and that the carousel, started from page 0, never shows |
| `FourCarousel.DeliveredGridsCovered` | cctv/CCTV/CCTVWid.cxx:155-199 | 32 cameras, or 28 with complementary groups 0 and 7, are all covered |
| `Alarms.CheckedCamera` | cctv/state/state.c:332-387 | a configured camera counts as none if and only if it is outside 0 to the number of cameras |
| `Alarms.CollectedIsExact` | cctv/CCTV/CCTVWid.cxx:1541-1707 | the alarm list has no camera twice, has a camera if and only if it alarms, and starts with the first PECU alarm |
| `Alarms.CollectedInOrder` | cctv/CCTV/CCTVWid.cxx:1541-1707 | the cameras stand in the order of the scan: PECU units behind the first PECU alarm, smoke detectors, doors; whatever source a camera has, one before it has an earlier one |
| `Alarms.ListFits` | cctv/CCTV/CCTVWid.cxx:1508-1705 | the list never needs more than 34 of its 36 entries |
| `Alarms.PecuIconsCover` | cctv/CCTV/CCTVWid.cxx:1541-1589 | exactly the alarming PECU cameras have icons |
| `Alarms.PecuIconsInOrder` | cctv/CCTV/CCTVWid.cxx:1547-1589 | exactly the units that are first to alarm with their camera have icons, and while no first alarm is known the second one without a camera; in their order, each with its own camera |
| `Alarms.FireIconsInOrder` | cctv/CCTV/CCTVWid.cxx:1591-1622 | every alarming smoke detector has one icon, in their order, each with its own camera |
| `Alarms.DoorIconsInOrder` | cctv/CCTV/CCTVWid.cxx:1624-1707 | exactly the open or jammed doors without a camera, or with one that watches none before them, have icons, in their order, each with its own camera |
| `Alarms.DoorIconsCounted` | cctv/CCTV/CCTVWid.cxx:1624-1707 | open doors, and jams, have one icon for each camera that watches one of them and one for each of them without a camera; 24 entries suffice if and only if these together are at most 24 |
| `Alarms.DoorIconsOverflow` | cctv/CCTV/CCTVWid.cxx:1624-1707 | with every door open and jammed, n cameras and the other doors without one, 48 icons go into either array of 24; n if the last camera watches the others too |
| `Alarms.TooManyDoors` | cctv/CCTV/CCTVWid.cxx:1624-1707 | 48 open or jammed doors without a camera give 48 icons, 32 with a camera each give 32 |
| `Alarms.Append` | cctv/CCTV/CCTVWid.cxx:1607-1619 | in place, a camera is added once |
| `Alarms.CollectPecu` | cctv/CCTV/CCTVWid.cxx:1541-1589 | the PECU part of the scan, in place, with its icons |
| `Alarms.CollectFire` | cctv/CCTV/CCTVWid.cxx:1591-1622 | the smoke detectors, in place, with their icons |
| `Alarms.CollectDoors` | cctv/CCTV/CCTVWid.cxx:1624-1707 | doors and jams, in place; the list stays distinct and complete although it is only searched through the icons |
| `Alarms.Collect` | cctv/CCTV/CCTVWid.cxx:1508-1707 | the whole scan gives the collected list and the four icon lists |
| `PaneAssignment.AssignmentIsStable` | cctv/CCTV/CCTVWid.cxx:1727-1785 | pane cameras are distinct and alarming, the first alarm is on screen, and a pane whose camera still alarms keeps it, except pane 0 under the priority rule |
| `PaneAssignment.AssignmentIsComplete` | cctv/CCTV/CCTVWid.cxx:1727-1785 | up to four alarming cameras are all shown, with four or more no pane is empty |
| `PaneAssignment.FirstAlarmTakesPane` | cctv/CCTV/CCTVWid.cxx:1727-1785 | if every pane keeps an alarming camera and the first alarm is not among them, it takes pane 0 and nothing else changes; otherwise every pane whose camera still alarms keeps it |
| `PaneAssignment.FirstAlarmsFirst` | cctv/CCTV/CCTVWid.cxx:1753-1785 | an alarm without a pane has behind it in the list no alarm that gets one anew |
| `PaneAssignment.NewAlarmsInOrder` | cctv/CCTV/CCTVWid.cxx:1753-1785 | the alarms that get a pane anew stand in the panes in the order of the list |
| `PaneAssignment.FreshedExactly` | cctv/CCTV/CCTVWid.cxx:1726-1786 | the view is brought up again unless the panes show different alarming cameras, the first alarm among them, with an empty pane only when every alarm is shown |
| `PaneAssignment.FillUsesUp` | cctv/CCTV/CCTVWid.cxx:1753-1773 | panes in use are left alone, and a pane stays empty only when the list is used up |
| `PaneAssignment.TakeFromList` | cctv/CCTV/CCTVWid.cxx:1733-1745 | in place, a pane's camera is found in the list and struck out |
| `PaneAssignment.KeepPanes` | cctv/CCTV/CCTVWid.cxx:1727-1751 | the first loop keeps the panes whose cameras still alarm |
| `PaneAssignment.FillPanes` | cctv/CCTV/CCTVWid.cxx:1753-1773 | the second loop gives the empty panes the cameras left over |
| `PaneAssignment.Assign` | cctv/CCTV/CCTVWid.cxx:1727-1785 | the assignment in place, with the refresh flag |
| `PlaybackOwnership.CloseOwned` | cctv/CCTV/CCTVWid.cxx:958-1090 | closing a slot keeps every handle owned exactly once |
| `PlaybackOwnership.OpenOwned` | cctv/CCTV/CCTVWid.cxx:958-1090 | so does opening into an empty slot |
| `PlaybackOwnership.MoveOwned` | cctv/CCTV/CCTVWid.cxx:1188-1210 | so does moving a handle to an empty slot |
| `PlaybackOwnership.OverwritingLeaks` | cctv/CCTV/CCTVWid.cxx:958-1395 | opening into a slot keeps ownership if and only if the slot is empty |
| `PlaybackOwnership.ResetPanesKeeps` | cctv/CCTV/CCTVWid.cxx:958-1090 | closing all panes and back panes keeps ownership and matching |
| `PlaybackOwnership.OpenPanesKeeps` | cctv/CCTV/CCTVWid.cxx:958-1090 | opening the panes keeps them and gives every wanted pane its handle unless one is refused |
| `PlaybackOwnership.LeavePanesKeeps` | cctv/CCTV/CCTVWid.cxx:958-1090 | leaving the four panes keeps them |
| `PlaybackOwnership.SyncPanesKeeps` | cctv/CCTV/CCTVWid.cxx:1092-1281 | after the two loops of the tick every pane has what it should, taken from a back pane or opened |
| `PlaybackOwnership.OpenBackPanesKeeps` | cctv/CCTV/CCTVWid.cxx:271-325 | preparing the back panes keeps ownership and matching |
| `PlaybackOwnership.CloseAllKeeps` | cctv/CCTV/CCTVWid.cxx:1995-2042 | hiding destroys every handle once |
| `PlaybackRuns.ToFourStyleKeeps` | cctv/CCTV/CCTVWid.cxx:958-1090 | the change to four panes keeps the invariant and ends in that style with no single picture |
| `PlaybackRuns.ToSingleStyleKeeps` | cctv/CCTV/CCTVWid.cxx:958-1090 | the change to the single style keeps it and shows the picture asked for |
| `PlaybackRuns.FourStyleKeeps` | cctv/CCTV/CCTVWid.cxx:1092-1281 | the four-pane tick keeps it |
| `PlaybackRuns.SingleStyleKeeps` | cctv/CCTV/CCTVWid.cxx:1283-1369 | the single tick keeps it |
| `PlaybackRuns.SwitchKeeps` | cctv/CCTV/CCTVWid.cxx:1283-1369 | putting away, bringing up and keeping the parked picture, together, lose and double no handle |
| `PlaybackRuns.TickKeeps` | cctv/CCTV/CCTVWid.cxx:1371-1395 | a tick keeps the invariant and brings the style to the one asked for |
| `PlaybackRuns.TickConverges` | cctv/CCTV/CCTVWid.cxx:1371-1395 | after one tick a pane holds a handle if and only if a camera is wanted there, and it decodes that camera; likewise the single picture |
| `PlaybackRuns.TickSettles` | cctv/CCTV/CCTVWid.cxx:1371-1395 | a second tick with nothing in between does nothing, whatever was refused |
| `PlaybackRuns.Retargeted` | cctv/CCTV/CCTVWid.cxx:60-153 | callbacks that only change what is wanted touch no handle |
| `PlaybackRuns.CloseCycleKeeps` | cctv/CCTV/CCTVWid.cxx:327-357 | stopping the cycle keeps the invariant |
| `PlaybackRuns.PrepareFourKeeps` | cctv/CCTV/CCTVWid.cxx:271-325 | preparing the next page keeps it |
| `PlaybackRuns.PrepareSingleKeeps` | cctv/CCTV/CCTVWid.cxx:271-325 | preparing the next single picture keeps it |
| `PlaybackRuns.CameraClickKeeps` | cctv/CCTV/CCTVWid.cxx:409-484 | a camera click keeps it |
| `PlaybackRuns.AlarmsChangedKeeps` | cctv/CCTV/CCTVWid.cxx:1499-1827 | new alarms keep it |
| `PlaybackRuns.EnterMoniKeeps` | cctv/CCTV/CCTVWid.cxx:594-651 | entering the monitor screen keeps it |
| `PlaybackRuns.LeaveMoniKeeps` | cctv/CCTV/CCTVWid.cxx:536-592 | leaving it keeps it |
| `PlaybackRuns.LeaveMoniExactly` | cctv/CCTV/CCTVWid.cxx:536-592 | the back button loses a handle if and only if a single picture is up over four panes and still asked for |
| `PlaybackRuns.HideKeeps` | cctv/CCTV/CCTVWid.cxx:1980-2042 | hiding keeps it |
| `PlaybackRuns.StepKeeps` | cctv/CCTV/CCTVWid.cxx:271-2060 | every callback keeps the invariant |
| `PlaybackRuns.EveryHandleAccounted` | cctv/CCTV/CCTVWid.cxx:271-2060 | over every run each handle is in exactly one of the ten slots or destroyed exactly once |
| `PlaybackRuns.EveryTickConverges` | cctv/CCTV/CCTVWid.cxx:958-1395 | over every run in which no handle was refused the next tick shows what is asked for |
| `PlaybackRefusals.OpenPanesAnswer` | cctv/CCTV/CCTVWid.cxx:1002-1027 | opening the panes: one create call for each pane that wants a camera, in order, and each pane has what its own call gave |
| `PlaybackRefusals.OpenChangedAnswer` | cctv/CCTV/CCTVWid.cxx:1120-1281 | the changed panes: each takes over a back pane's handle or has what its own create call gave |
| `PlaybackRefusals.BackIsTaken` | cctv/CCTV/CCTVWid.cxx:1120-1281 | a pane that changes to a camera some back pane has ready gets that very handle |
| `PlaybackRefusals.TickPictureAnswers` | cctv/CCTV/CCTVWid.cxx:958-1369 | the single picture was up already, was prepared in the background, or has what the one create call of the tick gave |
| `PlaybackRefusals.EveryTickAnswers` | cctv/CCTV/CCTVWid.cxx:958-1395 | at every tick of every run, whatever was refused: a picture that changes has what its own create call gave or what was prepared for it, one that stays has what it had, and what is there decodes the camera asked for |
| `PlaybackRefusals.AskedAnew` | cctv/CCTV/CCTVWid.cxx:958-1090 | the change to the four panes, and the tick after a hidden terminal is shown again, ask anew for every picture |
| `PlaybackRuns.AlarmsBringPanes` | cctv/CCTV/CCTVWid.cxx:1709-1800 | two or more alarms bring up the four panes with nothing over them if and only if no switch to the single style is pending and no single picture stays up over unchanged panes |
| `PlaybackRuns.EnlargedStays` | cctv/CCTV/CCTVWid.cxx:1709-1786 | a picture enlarged over the panes stays up if and only if the panes show the alarms already |
| `PlaybackRuns.AlarmComesUp` | cctv/CCTV/CCTVWid.cxx:1371-1395 | from two or more alarms to the picture: the next tick shows the first of them, and no camera that does not alarm, if and only if the panes give way |
| `PlaybackScreens.CameraButtonShows` | cctv/CCTV/CCTVWid.cxx:409-484 | at the tick after a camera click the camera is up alone (single style, or an alarm), or its page is up, if and only if no contrary change of style is pending; the page shows it if and only if no other displaces it |
| `PlaybackScreens.SingleButtonShows` | cctv/CCTV/CCTVWid.cxx:60-107 | the single-picture button brings up the picture over the panes, or the first pane in use, or what was to come next, or camera 0; until the tick the empty panes before it are asked to stay empty |
| `PlaybackScreens.FourButtonShows` | cctv/CCTV/CCTVWid.cxx:109-153 | the four-picture button brings up the page of the camera on screen, with that camera on it if and only if no other displaces it, and page 0 if no camera is |
| `PlaybackScreens.PaneClickToggles` | cctv/CCTV/CCTVWid.cxx:503-534 | a double click enlarges a pane; a second one brings back the panes asked for before if and only if no switch to the single style is pending |
| `PlaybackScreens.IconShows` | cctv/CCTV/CCTVWid.cxx:654-776 | an alarm icon brings up its camera if and only if no switch to the four panes is pending |
| `PlaybackScreens.LoneAlarmShows` | cctv/CCTV/CCTVWid.cxx:1787-1827 | a lone alarm comes up in the single style if and only if no switch to the four panes is pending |
| `PlaybackScreens.NoAlarmShows` | cctv/CCTV/CCTVWid.cxx:1499-1827 | when the last alarm goes the four panes show the first page if and only if no switch to the single style is pending; in the single style the picture asked for stays, or camera 0 comes up |
| `PlaybackScreens.HiddenAndShown` | cctv/CCTV/CCTVWid.cxx:1980-2060 | hidden, the terminal holds no handle; at the tick after it is shown again it shows what was asked for before |
| `PlaybackScreens.MonitorAndBack` | cctv/CCTV/CCTVWid.cxx:536-651 | over to the monitor screen and back every pane keeps its handle, and the single picture asked for over the panes is opened again |
| `PlaybackScreens.CycleShowsExactly` | cctv/CCTV/CCTVWid.cxx:155-269 | cycling pages puts a camera on a pane, and then within one round of cycle steps and ticks, if and only if nothing displaces it and no empty page lies on the way |
| `PlaybackScreens.CycleShowsEachAlone` | cctv/CCTV/CCTVWid.cxx:201-269 | cycling single pictures brings up every camera within as many rounds as there are cameras |
| `PlaybackBackground.StartsCycling` | cctv/CCTV/CCTVWid.cxx:2414-2418 | the terminal starts cycling: the first tick shows the first page, and the cycle goes on from there |
| `PlaybackBackground.FirstPageHas` | cctv/CCTV/CCTVWid.cxx:1814-1820 | the page shown first, and after the last alarm, has exactly the cameras of group 1, the first one of each place |
| `PlaybackBackground.CycleStarts` | cctv/CCTV/CCTVWid.cxx:359-383 | the button that starts the cycle takes an enlarged picture off the panes, and does nothing during an alarm or while cycling |
| `PlaybackBackground.CycleStops` | cctv/CCTV/CCTVWid.cxx:327-388 | the button that stops it destroys the background handles and touches no other, and does nothing during an alarm or when nothing cycles |
| `PlaybackBackground.CycleTakesPanes` | cctv/CCTV/CCTVWid.cxx:255-269 | a cycle step brings up the next page, also from an enlarged picture, if and only if no switch to the single style is pending |
| `PlaybackBackground.PreparedPagesUsed` | cctv/CCTV/CCTVWid.cxx:155-325 | the panes prepared for the next page give their handles to the panes when the cycle moves on |
| `PlaybackBackground.PreparedPictureUsed` | cctv/CCTV/CCTVWid.cxx:201-325 | the single picture prepared comes up with no create call, and is not created twice |
| `PlaybackBackground.AlarmStopsCycle` | cctv/CCTV/CCTVWid.cxx:1539-1800 | an alarm stops the cycle and destroys its background handles; no other handle is touched |
| `PlaybackBackground.CameraButtonPutsAway` | cctv/CCTV/CCTVWid.cxx:409-484 | a camera button destroys the background handles of a cycle, which goes on |
| `PlaybackBackground.MonitorKeeps` | cctv/CCTV/CCTVWid.cxx:594-651 | on the monitor screen only the panes, or in the single style the picture, keep their handles |
| `PlaybackBackground.ClicksWait` | cctv/CCTV/CCTVWid.cxx:409-776 | from new alarms until the next tick any clicks on cameras, panes and alarm icons do nothing |
| `PlaybackBackground.AlarmLocksButtons` | cctv/CCTV/CCTVWid.cxx:60-388 | during an alarm the buttons for style and cycle do nothing |
| `PlaybackBackground.DeadPaneIgnored` | cctv/CCTV/CCTVWid.cxx:503-534 | a double click on a pane without a stream does nothing, unless it takes an enlarged picture off |
| `PlaybackIcons.FireIconAsksFor` | cctv/CCTV/CCTVWid.cxx:654-776 | the icon of a smoke detector asks for that detector's camera |
| `PlaybackIcons.PecuIconAsksFor` | cctv/CCTV/CCTVWid.cxx:654-776 | the icon of a PECU unit asks for that unit's camera |
| `PlaybackIcons.DoorIconAsksFor` | cctv/CCTV/CCTVWid.cxx:654-776 | the icon of an open door asks for that door's camera |
| `PlaybackIcons.ClipIconAsksFor` | cctv/CCTV/CCTVWid.cxx:654-776 | the icon of a jammed door asks for that door's camera |
| `PlaybackIcons.LoneAlarmExactly` | cctv/CCTV/CCTVWid.cxx:1294-1313 | the alarms of one camera are a lone alarm's if and only if a PECU unit, a door or a jam is among them or exactly one smoke detector is |
| `PlaybackIcons.LoneAlarmIsParked` | cctv/CCTV/CCTVWid.cxx:1283-1369 | a picture that leaves the screen keeps its handle in the background, under its camera, if it is the lone alarm's, and has it destroyed otherwise |
| `PlaybackIcons.IconSwitchesBack` | cctv/CCTV/CCTVWid.cxx:1283-1369 | the alarm's icon then brings back that very handle with no create call, and the picture in between is destroyed |
| `PlaybackController.Controller.constructor` | cctv/CCTV/CCTVWid.cxx:22-46 | the globals as initialised |
| `PlaybackController.Controller.PlayStyleChanged` | cctv/CCTV/CCTVWid.cxx:958-1090 | refines the change of style |
| `PlaybackController.Controller.FourPlayStyle` | cctv/CCTV/CCTVWid.cxx:1092-1281 | refines the four-pane tick |
| `PlaybackController.Controller.SinglePlayStyle` | cctv/CCTV/CCTVWid.cxx:1283-1369 | refines the single tick |
| `PlaybackController.Controller.PlayCtrlFun` | cctv/CCTV/CCTVWid.cxx:1371-1395 | refines the tick |
| `PlaybackController.Controller.CloseVideoCyc` | cctv/CCTV/CCTVWid.cxx:327-357 | refines stopping the cycle |
| `PlaybackController.Controller.CycleBtnClicked` | cctv/CCTV/CCTVWid.cxx:359-388 | refines the two cycle buttons |
| `PlaybackController.Controller.GetBackVideoTimer` | cctv/CCTV/CCTVWid.cxx:255-269 | refines the cycle step |
| `PlaybackController.Controller.CycControlTimer` | cctv/CCTV/CCTVWid.cxx:271-325 | refines preparing the back pictures |
| `PlaybackController.Controller.CameBtnClicked` | cctv/CCTV/CCTVWid.cxx:409-484 | refines the camera click |
| `PlaybackController.Controller.SVPlayBtnClicked` | cctv/CCTV/CCTVWid.cxx:60-107 | refines the single-picture button |
| `PlaybackController.Controller.MVPlayBtnClicked` | cctv/CCTV/CCTVWid.cxx:109-153 | refines the four-picture button |
| `PlaybackController.Controller.PlayWidClicked` | cctv/CCTV/CCTVWid.cxx:503-534 | refines the double click on a pane |
| `PlaybackController.Controller.UpdateWarnInfo` | cctv/CCTV/CCTVWid.cxx:1706-1826 | refines what changed alarms do, the pane arrays assigned in place |
| `PlaybackController.Controller.UpdateWarnInfoTimer` | cctv/CCTV/CCTVWid.cxx:1499-1827 | refines the timer from the alarm bits to the panes |
| `PlaybackController.Controller.MoniBtnClicked` | cctv/CCTV/CCTVWid.cxx:594-651 | refines entering the monitor screen |
| `PlaybackController.Controller.MoniSysBackBtnClicked` | cctv/CCTV/CCTVWid.cxx:536-592 | refines leaving it |
| `PlaybackController.Controller.HideCCTVResp` | cctv/CCTV/CCTVWid.cxx:1980-2042 | refines hiding |
| `Rfc1321.StepIsOp` | cctv/CCTV/md5.cxx:76-91 | both orders of adding up a step give the operation of RFC 1321 |
| `Rfc1321.CounterAdvances` | cctv/CCTV/md5.cxx:118-122 | the two 32-bit words with carry count the bits modulo 2^64, whichever operand the overflow test uses |
| `Rfc1321.CounterBytes` | cctv/CCTV/md5.cxx:152-162 | the two words, each low byte first, are the 64-bit length field |
| `Rfc1321.PaddingLength` | cctv/CCTV/md5.cxx:155-159 | the prefix of the padding array is the padding to 56 modulo 64 |
| `Rfc1321.PaddedBytes` | cctv/CCTV/md5.cxx:147-165 | a message is padded with 0x80, zeros up to 56 modulo 64, and its length in bits modulo 2^64, lowest byte first |
| `Rfc1321.ChoiceF` | cctv/CCTV/md5.cxx:64-64 | F takes y where x is 1 and z where it is 0 |
| `Rfc1321.ChoiceG` | cctv/CCTV/md5.cxx:65-65 | G takes x where z is 1 and y where it is 0 |
| `Rfc1321.ParityH` | cctv/CCTV/md5.cxx:66-66 | H is the parity of the three bits |
| `Rfc1321.DifferenceI` | cctv/CCTV/md5.cxx:67-67 | I differs from y exactly where x is 1 or z is 0 |
| `Rfc1321.RotatesLeft` | cctv/CCTV/md5.cxx:71-71 | each rotation used is the product with a power of two, with what falls out at the top coming in below |
| `Rfc1321.WordValue` | cctv/CCTV/md5.cxx:262-287 | four bytes are loaded as b0 + 256 b1 + 65536 b2 + 16777216 b3, and storing the word gives them back |
| `Rfc1321.WordsBack` | cctv/CCTV/md5.cxx:280-287 | word k of a block is its bytes 4k to 4k + 3 |
| `Rfc1321.InitialBytes` | cctv/CCTV/md5.cxx:95-104 | before the first block the registers are the bytes 01 to ef upwards and fe to 10 downwards |
| `Md5Rsa.FFIsOp` | cctv/CCTV/md5.cxx:64-91 | the round 1 macro is the operation of RFC 1321 |
| `Md5Rsa.GGIsOp` | cctv/CCTV/md5.cxx:64-91 | the round 2 macro, with its rewritten boolean function |
| `Md5Rsa.HHIsOp` | cctv/CCTV/md5.cxx:64-91 | the round 3 macro |
| `Md5Rsa.IIIsOp` | cctv/CCTV/md5.cxx:64-91 | the round 4 macro |
| `Md5Rsa.Transform` | cctv/CCTV/md5.cxx:174-260 | the 64 steps in place are the compression function |
| `Md5Rsa.GuardExactness` | cctv/CCTV/md5.cxx:132-133 | the 32-bit loop guard is exact if and only if nothing is buffered or index and length stay below 2^32 |
| `Md5Rsa.Context.constructor` | cctv/CCTV/md5.cxx:95-104 | an empty message so far |
| `Md5Rsa.Context.CountBytes` | cctv/CCTV/md5.cxx:118-122 | the counter advances by the length |
| `Md5Rsa.Context.TransformBlocks` | cctv/CCTV/md5.cxx:132-133 | the block loop chains all whole blocks of the input and stops with less than one left |
| `Md5Rsa.Context.Update` | cctv/CCTV/md5.cxx:110-142 | state, count and buffer account for the message so far followed by the input |
| `Md5Rsa.Context.Final` | cctv/CCTV/md5.cxx:147-170 | the digest is that of RFC 1321 and the context is cleared |
| `Md5Rsa.Pieces` | cctv/CCTV/md5.cxx:95-170 | any message in any pieces the guard accepts gives its digest |
| `Md5Rsa.File` | cctv/CCTV/md5.cxx:322-339 | whatever the reads return, the digest is that of the whole file |
| `Md5Plumb.Step1IsOp` | cctv/rtsp/md5.c:153-166 | the rewritten round 1 step is the operation of RFC 1321 |
| `Md5Plumb.Step2IsOp` | cctv/rtsp/md5.c:153-166 | the round 2 step |
| `Md5Plumb.Step3IsOp` | cctv/rtsp/md5.c:153-166 | the round 3 step |
| `Md5Plumb.Step4IsOp` | cctv/rtsp/md5.c:153-166 | the round 4 step |
| `Md5Plumb.Transform` | cctv/rtsp/md5.c:168-249 | the 64 steps in place are the compression function |
| `Md5Plumb.Context.constructor` | cctv/rtsp/md5.c:47-56 | an empty message so far |
| `Md5Plumb.Context.CountBytes` | cctv/rtsp/md5.c:68-71 | the counter advances by the length |
| `Md5Plumb.Context.TransformBlocks` | cctv/rtsp/md5.c:92-99 | every block goes through the buffer and extends the chain |
| `Md5Plumb.Context.Update` | cctv/rtsp/md5.c:62-104 | chain, count and buffer account for the message so far followed by the input |
| `Md5Plumb.Context.Pad` | cctv/rtsp/md5.c:115-145 | one or two last blocks in place give the chain over the padded message |
| `Md5Plumb.Context.Final` | cctv/rtsp/md5.c:110-149 | the digest is that of RFC 1321; of the context only the first word is cleared |
| `Md5Plumb.LastBlocks` | cctv/rtsp/md5.c:115-145 | the one or two last blocks are the padding of RFC 1321 |
| `Md5Plumb.Pieces` | cctv/rtsp/md5.c:47-149 | any message in any pieces gives its digest |
| `Md5Plumb.SameDigest` | cctv/rtsp/md5.c:47-149 | both implementations give the same digest, however the message is cut up for each |
| `Framing.CutInTwo` | cctv/pmsg/pmsgcli.c:189-262 | cutting a stream in two steps gives the messages of the whole |
| `Framing.AnyFragmentation` | cctv/pmsg/pmsgcli.c:189-262 | messages delivered and bytes kept do not depend on how recv cuts the stream |
| `Framing.CutFrames` | cctv/pmsg/pmsgcli.c:189-262 | a sequence of frames and an unfinished one is cut into exactly those |
| `Framing.StreamDelivered` | cctv/pmsg/pmsgcli.c:189-262 | for any frames and any fragmentation the callback gets exactly those messages in order and exactly the unfinished tail is kept |
| `Framing.NextConnection` | cctv/pmsg/pmsgcli.c:189-262 | every sequence of frames on a new connection, however it is cut up, is delivered as sent if and only if the old one left nothing behind |
| `Framing.Swallowed` | cctv/pmsg/pmsgcli.c:201-262 | a leftover and what comes first are taken for one message, with the head the two make up; until it is complete nothing is delivered |
| `Framing.HeadTooLong` | cctv/pmsg/pmsgcli.c:201-238 | if the length in that head is too big, the piece that completes it and the leftover are thrown away |
| `Framing.StaleLeftover` | cctv/pmsg/pmsgcli.c:189-262 | for example a leftover head takes a frame for its payload |
| `Framing.Receiver.Room` | cctv/pmsg/pmsgcli.c:195-195 | recv is always asked for at least 990 bytes |
| `Framing.Receiver.OnRecv` | cctv/pmsg/pmsgcli.c:189-262 | one piece: the two buffers in place do what the stream function says |
| `Framing.Receiver.CutBuffer` | cctv/pmsg/pmsgcli.c:212-261 | the inner loop over the buffer |
| `Framing.Receiver.KeepRest` | cctv/pmsg/pmsgcli.c:216-260 | the unfinished message goes to the leftover buffer and fits |
| `Framing.Receiver.Receive` | cctv/pmsg/pmsgcli.c:189-262 | a whole connection in place, no buffer overrun |
| `Framing.GetMsgDataEcc` | cctv/pmsg/pmsgcli.c:54-69 | the check byte is the exclusive or of the payload |
| `Framing.CheckIsParity` | cctv/pmsg/pmsgcli.c:54-69 | each bit of the check byte is the parity of that bit over the payload |
| `Framing.CheckAdds` | cctv/pmsg/pmsgcli.c:54-69 | the check byte of one byte is that byte, and that of a payload put together the exclusive or of those of its parts |
| `Framing.SendPmsgData` | cctv/pmsg/pmsgcli.c:635-682 | the bytes sent are the frame, the payload cut off at 1014 bytes |
| `Framing.SentBytes` | cctv/pmsg/pmsgcli.c:635-682 | the bytes on the wire: start byte, command and length with the high byte first, four zeros, the check byte that makes the payload add up to zero, and at most 1014 bytes of payload |
| `Framing.SentDecodes` | cctv/pmsg/pmsgcli.c:635-682 | a sent frame decodes to itself if and only if the command is at most 255 and the payload at most 1014 bytes |
| `LinkedQueue.Queue.Append` | cctv/vdec/fb.c:114-120 | the node is added last; head, tail, count and links agree |
| `LinkedQueue.Queue.UnlinkFirst` | cctv/vdec/commondef.c:172-177 | the first node is taken out |
| `LinkedQueue.Queue.UnlinkAfter` | cctv/vdec/fb.c:155-174 | a middle or last node is taken out and head, tail, count and links are right |
| `LinkedQueue.Queue.Unlink` | cctv/vdec/fb.c:155-174 | removal at any position |
| `FrameBuffers.Match` | cctv/vdec/fb.c:148-179 | the first freed buffer of the size |
| `FrameBuffers.StepKeeps` | cctv/vdec/fb.c:63-324 | every locked section keeps each buffer in one place, with stack, queue and memory agreeing |
| `FrameBuffers.EveryRunAccounts` | cctv/vdec/fb.c:63-324 | over every interleaving each of the 64 buffers is in exactly one place, the stack and the queue hold exactly theirs, and the index counts the rest |
| `FrameBuffers.FlushHasRoom` | cctv/vdec/fb.c:250-264 | put_framebuf never refuses a buffer, and what a flush frees is the buffer's one block of memory |
| `FrameBuffers.HitMatches` | cctv/vdec/fb.c:131-188 | a cache hit is a freed buffer, last freed under the size asked for |
| `FrameBuffers.FreedFirstOutFirst` | cctv/vdec/fb.c:95-188 | of the freed buffers of a size the one freed first is handed out first |
| `FrameBuffers.PutThenGet` | cctv/vdec/fb.c:228-264 | the stack gives back first what was put on it last |
| `FrameBuffers.FlushStacks` | cctv/vdec/fb.c:63-93 | a flush turns the queue over onto the stack, the buffer freed last on top |
| `FrameBuffers.FreshHoldsNothing` | cctv/vdec/fb.c:284-296 | clearing the descriptor of a buffer off the stack loses no memory |
| `FrameBuffers.GoneForGood` | cctv/vdec/fb.c:299-322 | a buffer lost to a failed call, or dropped without a queue node, never comes back |
| `FrameBuffers.AllocFails` | cctv/vdec/fb.c:266-324 | an allocation fails if and only if no freed buffer fits and a memory call fails or all 64 are in use or gone |
| `FrameBuffers.AllocLeaves` | cctv/vdec/fb.c:266-290 | a hit takes the first fitting entry out of the queue and leaves the stack as it was; a miss empties the queue |
| `FrameBuffers.AllocIsARun` | cctv/vdec/fb.c:266-324 | a whole allocation is one of the runs and hands its buffer to the client |
| `FrameBuffers.HitFits` | cctv/vdec/fb.c:266-324 | if clients free what they were given, a hit has memory made for the size asked for |
| `FrameBuffers.Allocator.constructor` | cctv/vdec/fb.c:214-225 | all 64 buffers on the stack |
| `FrameBuffers.Allocator.GetFramebuf` | cctv/vdec/fb.c:228-248 | takes the top of the stack, null when it is empty |
| `FrameBuffers.Allocator.PutFramebuf` | cctv/vdec/fb.c:250-264 | puts a buffer back unless the stack is full |
| `FrameBuffers.Allocator.FlushQueue` | cctv/vdec/fb.c:63-93 | all freed buffers go back on the stack in order |
| `FrameBuffers.Allocator.PutPacket` | cctv/vdec/fb.c:95-129 | a freed buffer is queued unless no node can be had |
| `FrameBuffers.Allocator.GetPacket` | cctv/vdec/fb.c:131-188 | the first freed buffer of the size leaves the queue |
| `FrameBuffers.Allocator.FramebufAlloc` | cctv/vdec/fb.c:266-324 | lookup, flush, stack and memory calls together |
| `FrameBuffers.Allocator.FramebufFree` | cctv/vdec/fb.c:482-492 | a freed buffer is queued under the size given |
| `TiledLayout.PlaceExactly` | cctv/vdec/fb.c:409-457 | with room in 32 bits no base wraps and the four bases are page-aligned and follow one another |
| `TiledLayout.TiledRegions` | cctv/vdec/fb.c:409-477 | luma, chroma and motion-vector regions are disjoint and inside the memory allocated |
| `TiledLayout.Sizes` | cctv/vdec/fb.c:409-422 | every size is page-rounded and holds its samples, but that two luma fields lack one byte if and only if the samples are one more than a multiple of 8192 |
| `TiledLayout.SizesTight` | cctv/vdec/fb.c:409-422 | no size is a page or more larger than its samples |
| `TiledLayout.TiledSizeTight` | cctv/vdec/fb.c:423-477 | the memory allocated is used up but for what the start needs to get to a page |
| `TiledLayout.ChromaSamples` | cctv/vdec/fb.c:293-299 | a chroma plane has a quarter of the luma samples for 4:2:0, half for 4:2:2 either way, and as many for the other formats |
| `TiledLayout.UnpackPack` | cctv/vdec/fb.c:459-468 | the three words decode to the four page numbers |
| `TiledLayout.HardwareSees` | cctv/vdec/fb.c:444-468 | what the hardware reads is where the planes were put |
| `TiledLayout.BaseAgrees` | cctv/vdec/fb.c:326-384 | tiled_framebuf_base packs the same words if and only if the fields are together or the chroma sizes agree; for 4:2:0 always |
| `TiledLayout.LinearLayout` | cctv/vdec/fb.c:293-314 | the raster planes and motion vectors are disjoint, in order, and end where the memory ends |
| `Mailbox.StepKeeps` | cctv/vdec/ipuapi.c:215-302 | every step of either thread keeps the accounting and the order |
| `Mailbox.EveryFrameAccounted` | cctv/vdec/ipuapi.c:215-302 | under every interleaving each accepted frame is in one slot, in hand, released by exactly one callback, or lost to a failed call; exactly those with address 0 are forgotten; an empty first slot means an empty second |
| `Mailbox.ShownInOrder` | cctv/vdec/ipuapi.c:215-302 | what is displayed is a subsequence, in order, of what was accepted |
| `Mailbox.NewestKept` | cctv/vdec/ipuapi.c:437-472 | after a send the new frame is pending, and the only frame dropped is the one sent just before |
| `Mailbox.TurnDisplays` | cctv/vdec/ipuapi.c:215-302 | a turn of the display loop displays and calls back the waiting frame, only calls it back if the display was switched off meanwhile, and loses it if the queue call fails |
| `Mailbox.DisplaysCounted` | cctv/vdec/ipuapi.c:215-302 | under every interleaving as many frames are displayed as queue calls succeed |
| `Mailbox.SwitchedOff` | cctv/vdec/ipuapi.c:215-472 | under every interleaving, once switched off and until switched on, at most the frame about to be queued is displayed, one about to be taken is taken, and the sends past their test come in |
| `Mailbox.NothingUntilEnabled` | cctv/vdec/ipuapi.c:215-472 | until it is first switched on nothing is accepted or displayed |
| `Mailbox.IpuInfo.SendDisAddr` | cctv/vdec/ipuapi.c:437-472 | the slots' fields after a send |
| `Mailbox.IpuInfo.TakeFrame` | cctv/vdec/ipuapi.c:225-237 | the slots' fields after the display thread takes a frame |
| `Mailbox.IpuInfo.TaskTurn` | cctv/vdec/ipuapi.c:215-302 | one undisturbed turn of the display loop |
| `ScreenFill.RowInPlane` | cctv/vdec/ipuapi.c:543-548 | the three writes of a row of a rectangle that fits stay in their planes |
| `ScreenFill.SetBackground` | cctv/vdec/ipuapi.c:530-559 | every byte of the buffer after the fill, all writes in bounds |
| `ScreenFill.FillRow` | cctv/vdec/ipuapi.c:545-547 | every byte after one row |
| `ScreenFill.LumaIsRectangle` | cctv/vdec/ipuapi.c:543-548 | in the luma plane exactly the pixels in the columns and rows of the rectangle that are on the screen turn 0 |
| `ScreenFill.ChromaIsTouched` | cctv/vdec/ipuapi.c:543-548 | in both chroma planes exactly the touched blocks turn 128 |
| `ScreenFill.TouchedIsCovered` | cctv/vdec/ipuapi.c:543-548 | these are the blocks the rectangle covers if and only if it is empty or its left edge and width are even |
| `ScreenFill.ChromaIsCovered` | cctv/vdec/ipuapi.c:543-548 | on a screen of even height, for even left edge and width, in both chroma planes exactly the samples of the covered blocks turn 128, for every block |
| `ScreenFill.FitsExactly` | cctv/vdec/ipuapi.c:543-548 | every row painted stays in its planes if and only if the height is even or the rectangle keeps off the half row that an odd height lacks |
| `PacketQueue.StepKeeps` | cctv/vdec/commondef.c:21-323 | every locked section keeps queue, frees, nodes and the bound |
| `PacketQueue.EveryRunAccounts` | cctv/vdec/commondef.c:21-323 | with one consumer the queue is exactly the packets after those that left, each packet that left undelivered had its payload freed exactly once, and the count is at most 100 and one for each producer |
| `PacketQueue.BoundReached` | cctv/vdec/commondef.c:64-124 | that bound is reached, for any number of producers |
| `PacketQueue.FirstIFrame` | cctv/vdec/commondef.c:233-323 | whatever producers do between scan and removal, the last I-frame seen is handed out, what was before it freed, and exactly what came after it left; with none seen everything is freed |
| `PacketQueue.LastIFrame` | cctv/vdec/commondef.c:233-261 | the position of the last I-frame, or the length of the queue |
| `PacketQueue.DataQueue.HasRoom` | cctv/vdec/commondef.c:77-102 | the capacity check |
| `PacketQueue.DataQueue.Append` | cctv/vdec/commondef.c:64-124 | the packet is appended |
| `PacketQueue.DataQueue.TryGet` | cctv/vdec/commondef.c:157-207 | the first packet is taken out |
| `PacketQueue.DataQueue.FlushQueue` | cctv/vdec/commondef.c:21-49 | all payloads are freed, and nodes only with a payload |
| `PacketQueue.DataQueue.FindIFrame` | cctv/vdec/commondef.c:233-261 | the node of the last I-frame |
| `PacketQueue.DataQueue.GetFirstIFrame` | cctv/vdec/commondef.c:263-323 | scan and removal together |
| `Crc8.Table` | cctv/pmsg/pmsgproc.c:39-56 | every table entry is the remainder of its index by eight register shifts |
| `Crc8.GetCRC8` | cctv/pmsg/pmsgproc.c:106-114 | the loop computes the CRC of the bytes |
| `Crc8.CrcIsRemainder` | cctv/pmsg/pmsgproc.c:39-114 | the CRC is the remainder of long division of the message and eight zero bits by x^8 + x^5 + x^4 + 1 |
| `Crc8.DivideByte` | cctv/pmsg/pmsgproc.c:39-114 | one table step is eight steps of long division |
| `Crc8.CheckByte` | cctv/pmsg/pmsgproc.c:106-114 | a message followed by a byte leaves no remainder if and only if the byte is its CRC |
| `Crc8.CrcLinear` | cctv/pmsg/pmsgproc.c:106-114 | the CRC of a difference is the difference of the CRCs; an error goes unseen if and only if its own CRC is zero |
| `Crc8.SeesOneByte` | cctv/pmsg/pmsgproc.c:106-114 | a changed byte changes the CRC |
| `Crc8.SeesBurst` | cctv/pmsg/pmsgproc.c:106-114 | an error burst of at most eight bits, also across two bytes, changes the CRC |
| `TextLines.Cut` | cctv/state/fileConfig.c:104-104 | one fgets: up to a newline or 255 characters |
| `TextLines.ConcatLines` | cctv/state/fileConfig.c:104-125 | the lines read from a file are the file |
| `TextLines.LinesConcat` | cctv/state/fileConfig.c:104-125 | whole lines written are read back as they are |
| `IniFile.SearchIsFirstHit` | cctv/state/fileConfig.c:104-204 | the line a parameter is read from is the first that a write rewrites |
| `IniFile.FoundAfterWrite` | cctv/state/fileConfig.c:78-204 | after a write the parameter is read from the line written |
| `IniFile.OtherKeysKept` | cctv/state/fileConfig.c:78-204 | every other key is read from the line it was read from before |
| `IniFile.SameKeyElsewhere` | cctv/state/fileConfig.c:104-138 | the same key of another group is read from the written line if and only if its line was rewritten or, with none to read, the added one is seen; else as before |
| `IniFile.ReadAfterWrite` | cctv/state/fileConfig.c:78-205 | reading after writing gives the value, whether key or group existed or not, cut off where its line did not fit in 255 characters, followed by what the caller's buffer held beyond it, and the length of both |
| `IniFile.ValueBackExactly` | cctv/state/fileConfig.c:78-205 | a value whose line fits comes back if and only if the buffer held no longer string, and a longer one if and only if the buffer was as long and ended in what was cut off |
| `IniFile.OthersReadAsBefore` | cctv/state/fileConfig.c:78-205 | other parameters read as before |
| `IniFile.TrimKeeps` | cctv/state/fileConfig.c:11-23 | a value without characters 10, 13 and 20 survives |
| `IniFile.TrimsEach` | cctv/state/fileConfig.c:11-23 | characters 10, 13 and 20 are dropped wherever they are, all others stay in their order |
| `IniFile.ParamFile.ModifyParam` | cctv/state/fileConfig.c:78-148 | the new file, or -1 and the old one |
| `IniFile.ParamFile.CopyReplacing` | cctv/state/fileConfig.c:104-123 | the loop over the old file with its two flags |
| `IniFile.ParamFile.ReadParam` | cctv/state/fileConfig.c:151-205 | the value, its length and the caller's buffer |
| `IniOpenEnd.CleanOrOpen` | cctv/state/fileConfig.c:104-138 | every text ends cleanly or in an unterminated line that what is added runs on from |
| `IniOpenEnd.JoinedHalves` | cctv/state/fileConfig.c:104 | fgets makes one line of the joined one, or two if it is longer than 255 characters |
| `IniOpenEnd.WriteAtOpenEnd` | cctv/state/fileConfig.c:104-138 | at such an end the value is read back if and only if the joined line is one of the key, cut off by no more than its newline, or one of the group added whose rest does not stand in for the parameter |
| `IniOpenEnd.OthersAtOpenEnd` | cctv/state/fileConfig.c:104-138 | other parameters then read as before from any line but the last, and otherwise from what fgets makes of the joined line |
| `IniOpenEnd.NoFinalNewline` | cctv/state/fileConfig.c:125-138 | for example a parameter added behind a last line of another key is not found |
| `EventLog.FileIsSuffix` | cctv/log/log.c:74-245 | after any writes, some failing, and restarts, the file is exactly the newest entries written, one line each and in order, and the count is their number |
| `EventLog.CountMisses` | cctv/log/log.c:74-245 | for any descriptions the file has as many more lines than the count as newlines were written since the start |
| `EventLog.KeptIs` | cctv/log/log.c:149-239 | all entries up to 11000, from then on between 10001 and 11000 of them |
| `EventLog.StampBack` | cctv/log/log.c:247-302 | parsing a written time gives it back |
| `EventLog.RecordBack` | cctv/log/log.c:342-388 | a written line gives back time, description and type |
| `EventLog.SearchFinds` | cctv/log/log.c:342-388 | the search gives, in order, the first ten thousand entries of the day and type that the file holds |
| `EventLog.SkipOldest` | cctv/log/log.c:205-212 | the oldest thousand lines are skipped |
| `EventLog.CopyLines` | cctv/log/log.c:214-217 | the rest is copied line by line |
| `EventLog.LogFile.constructor` | cctv/log/log.c:74-110 | the lines of the file found are counted |
| `EventLog.LogFile.WriteLog` | cctv/log/log.c:123-245 | file and count after a write |
| `EventLog.LogFile.ReadLog` | cctv/log/log.c:342-388 | the loop finds the matching records |

## Left out

- All widgets, images, labels, timers as such and the click-rate limits; only the callbacks' effect on the controller is modelled, and a timer is an event that may come at any time on its screen.
- The media player, RTSP, sockets, select, the VPU and IPU drivers and physical memory: their calls succeed or fail as an oracle or a parameter says.
- `g_iNeedUpdateWarnIcon` and the redrawing of alarm icons; the icon lists themselves are modelled.
- Password screens, calendar buttons, FTP dialogue, file search, display-state dispatch and plain getters and setters.
- `packet_queue_put_front`, which never links its node, and the message queues of NVRMsgProc.cxx.
- Waiting: `packet_queue_put` and the blocking `packet_queue_get` repeat a test that is modelled as one step; fairness and liveness are not.
- Resynchronisation after a malformed NVR message drops what was received; it is in the model of the loop, but the fragmentation results are for well-formed streams.
- A negative payload length for `PMSG_SendPmsgData`, which the comparison with an unsigned constant turns into 1014.
- Signed overflow of stride times height in the layout arithmetic: sizes are naturals, addresses wrap at 32 bits.
- Files with NUL characters, failures of the copy from the temporary file, and narrowing of parsed numbers to the fields of a log time.
- The frames still pending when the display thread ends, and a display without a release callback.
- Framing.Receiver.Receive: pieces are at least one byte long and bounded by the room recv was asked for; the end of a connection is the end of the sequence.
- PlaybackRuns.TickConverges: assumes that the player refused no handle since the state was complete; what is shown after refusals is in PlaybackRefusals.
- PlaybackRuns.LeaveMoniExactly: speaks of one call from any owned state, also those the screens exclude.
- FrameBuffers.HitFits: the queue is keyed by stride and height only; chroma format and motion vectors are not compared.
- IniFile.ReadAfterWrite: for keys and groups that are not prefixes of each other, and fit the buffer with the equals sign or the newline.
- IniOpenEnd.WriteAtOpenEnd: for lines that fit the buffer.
- EventLog.LogFile.ReadLog: requires lines of the type searched to be long enough to be parsed, which every written line is; for a shorter one the code reads what its buffers held before.
