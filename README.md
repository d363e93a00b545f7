# Karabo-slsDetectors in Dafny

A model of the core of the Karabo-slsDetectors device package.  The package puts PSI SLS
detectors (Jungfrau, Gotthard, Gotthard-II) under Karabo: control devices configure and
run the modules, and receiver devices collect the frames into trains.  For running
without hardware it also ships a simulation of the SLS libraries.  Two generations of
devices are modelled: the legacy one in `slsControl/src` and `slsReceiver/src`, and the
current one in `src/slsControl` and `src/slsReceiver`.

Modules, one per file:

- `sim_defs`: the enumerations of the simulated `slsDetectorDefs`, with their numeric codes.
- `detector_model`, `detector_commands`: the simulated `sls::Detector` as a value, and its
  text command language (`putCommand`, `getCommand`, the `<module>:` prefix).
- `sim_detector`: the same detector as a class whose setters update per-module vectors in
  place.
- `users_tables`, `users_model`, `users_commands`: the legacy simulated `slsDetectorUsers`
  as values.
- `sim_detector_users`: the legacy simulated `slsDetectorUsers` as a class.
- `sim_receiver`, `sim_receiver_users`: the simulated receivers.  They take their port from
  the command line, interpret receiver commands, fill a frame buffer with packed samples
  and roll raw files over every 20000 frames.
- `raw_files`: the raw file names the simulated receivers build.
- `pixel_words`: the 16-bit pixel words (adc and gain) that the receivers pack and unpack.
- `receiver_devices`: the Jungfrau, Gotthard and Gotthard-II receiver devices.  Covers
  frame sizes, shapes, unpacking, the memory cell and the new-train rule.
- `detector_data`: `DetectorData`, the per-train buffer, as a class over two arrays.
- `sls_receiver_device`: the SlsReceiver device, both generations.  Covers the warning
  limiter, the double buffering, the flush rule, the accumulation of packets and the
  receiver's argv.
- `control_config`: what both control generations share.  Covers the states, configuration
  entries, the calls made on the detector library, the base configuration file and the
  Jungfrau exposure timer.
- `sls_control`: the current SlsControl with JungfrauControl and Gotthard2Control.
- `sls_control_legacy`: the legacy SlsControl.
- `text`, `wrappers`: string helpers (split, join, number printing and parsing) and
  `Option`/`Result`.

Modelling conventions:

- Calls into the SLS libraries are appended to a `calls` log.  What the hardware answers
  (ping results, register read-backs, run status, temperatures) becomes a method parameter.
- The clock and `rand()` become parameters too.
- Karabo configuration hashes are ordered lists of entries.

## Model

| member | source | states |
|---|---|---|
| SimDefs.SettingsCodes | src/slsDetectorsSimulation/sls_simulation_defs.h:109-133 | every detector setting has the enumerator value of the header (STANDARD = 0 ... G4_LOWGAIN = 20, UNDEFINED = 200, UNINITIALIZED = 201) and decoding that value gives the setting back |
| SimDefs.SettingsCodesDistinct | src/slsDetectorsSimulation/sls_simulation_defs.h:109-133 | no two settings share a value |
| SimDefs.SettingsFromCode | src/slsDetectorsSimulation/sls_simulation_defs.h:109-133 | an integer names a setting exactly when it is in 0..20, 200 or 201 |
| SimDefs.DetectorTypeCodes | src/slsDetectorsSimulation/sls_simulation_defs.h:136-145 | detector types are numbered GENERIC = 0 ... GOTTHARD2 = 7 and decode back |
| SimDefs.DetectorTypeFromCode | src/slsDetectorsSimulation/sls_simulation_defs.h:136-145 | an integer names a detector type exactly when it is in 0..7 |
| SimDefs.TimingModeCodes | src/slsDetectorsSimulation/sls_simulation_defs.h:155 | timing modes are numbered AUTO_TIMING = 0 ... NUM_TIMING_MODES = 5 and decode back |
| SimDefs.TimingModeFromCode | src/slsDetectorsSimulation/sls_simulation_defs.h:155 | an integer names a timing mode exactly when it is in 0..5 |
| SimDefs.RunStatusCodes | src/slsDetectorsSimulation/sls_simulation_defs.h:173 | run states are numbered IDLE = 0 ... STOPPED = 6 and decode back |
| SimDefs.RunStatusFromCode | src/slsDetectorsSimulation/sls_simulation_defs.h:173 | an integer names a run state exactly when it is in 0..6 |
| SimDefs.CurrentSrcDisabled | src/slsDetectorsSimulation/sls_simulation_defs.h:182 | the default record is enable 0, fix -1, normal -1, select 0 |
| SimDefs.CurrentSrcEnable | src/slsDetectorsSimulation/sls_simulation_defs.h:185-186 | the one-flag form sets enable from the flag and leaves fix and normal at -1, select 0 |
| SimDefs.CurrentSrcFixSelect | src/slsDetectorsSimulation/sls_simulation_defs.h:190-191 | the two-argument form enables, sets fix from the flag, keeps normal -1 and takes the column mask |
| SimDefs.CurrentSrcFull | src/slsDetectorsSimulation/sls_simulation_defs.h:196-200 | the three-argument form enables and sets fix, normal and select from its arguments |
| SimDefs.CurrentSrcForms | src/slsDetectorsSimulation/sls_simulation_defs.h:175-201 | only the default form is disabled, the one-flag form is enabled exactly for true, and only the three-argument form sets normal |
| DetectorModel.Defaults | slsDetectorsSimulation/src/Detector.cc:101-132 | the reset leaves no modules, a consistent state, and keeps the shared-memory id, the register file and the frame countdown |
| DetectorModel.Initial | slsDetectorsSimulation/src/Detector.cc:74-94 | a new detector is the reset state with the given shared-memory id, an empty register file and no frames to deliver |
| DetectorModel.WithHosts | slsDetectorsSimulation/src/Detector.cc:189-199 | after `setHostname(h)` the host list is h, `size()` is its length and every per-module vector has one entry per host |
| DetectorModel.WithHostsModuleDefaults | slsDetectorsSimulation/src/Detector.cc:189-199 | each module then reports UNINITIALIZED, 0 V, power off, "/tmp", "run" and index 0, whatever the state was before |
| DetectorModel.WrittenPrefix | slsDetectorsSimulation/src/Detector.cc:277-289 | the positions a setter writes before it throws are the longest valid prefix of the list, ending at the first invalid position |
| DetectorModel.AssignEach | slsDetectorsSimulation/src/Detector.cc:277-289 | a listed setter writes exactly the positions of that prefix and keeps every other entry |
| DetectorModel.Gathered | slsDetectorsSimulation/src/Detector.cc:173-187 | a getter succeeds exactly for the empty list or a list of valid positions, and then answers entry `v[pos[k]]` for the k-th position |
| DetectorModel.AssignedThenGathered | slsDetectorsSimulation/src/Detector.cc:261-289 | reading back what a setter wrote gives the new value at every listed position, and a setter that threw still wrote the positions before the bad one |
| DetectorModel.AssignedKeepsOthers | slsDetectorsSimulation/src/Detector.cc:379-391 | a setter with a position list leaves every unlisted module unchanged |
| DetectorModel.SettingsNames | slsDetectorsSimulation/src/Detector.cc:18-42 | the name table and its inverse built in the constructor are inverse for every setting |
| DetectorModel.SettingsLookupDefault | slsDetectorsSimulation/src/Detector.cc:79-81 | a name missing from the inverse table reads as STANDARD, the default-inserted 0 |
| DetectorModel.TimingNames | slsDetectorsSimulation/src/Detector.cc:46-53 | the timing tables are inverse, and a missing name reads as AUTO_TIMING |
| DetectorModel.RunStatusNamesDistinct | slsDetectorsSimulation/src/Detector.cc:57-65 | no two run states share a name |
| DetectorModel.SettingsList | slsDetectorsSimulation/src/Detector.cc:249-259 | only Jungfrau, Gotthard and Gotthard-II have settings, and their list starts with DYNAMICGAIN |
| DetectorModel.NeededFramesAtLeastFrames | slsDetectorsSimulation/src/Detector.cc:995-1001 | frames x max(gates, 1) x max(triggers, 1) is at least the number of frames, and equal to it without gates or triggers |
| DetectorModel.StartMeasurement | slsDetectorsSimulation/src/Detector.cc:995-1001 | starting sets the countdown to the needed frames and the status RUNNING, and nothing else |
| DetectorModel.StopDetector | slsDetectorsSimulation/src/Detector.cc:448-454 | stopping sets IDLE and advances every file index, and changes nothing else |
| DetectorModel.DataStep | slsDetectorsSimulation/src/Detector.cc:1007-1031 | one pass of the data worker keeps the state consistent |
| DetectorModel.DataSteps | slsDetectorsSimulation/src/Detector.cc:1007-1031 | any number of passes keeps the state consistent |
| DetectorModel.MeasurementRunsOut | slsDetectorsSimulation/src/Detector.cc:1016-1024 | a running measurement with m frames to go is still running after m passes and stopped by the next one |
| DetectorModel.MeasurementCompletes | slsDetectorsSimulation/src/Detector.cc:995-1031 | start followed by needed-frames + 1 passes ends IDLE with the countdown at 0 and every file index advanced, nothing else changed |
| DetectorModel.RegisterReadAfterWrite | slsDetectorsSimulation/src/Detector.cc:581-592 | a register reads back the last value written to it, other registers are unaffected, and a register never written reads 0 |
| DetectorModel.ListsAgree | slsDetectorsSimulation/src/Detector.cc:554-560 | the settings, timing-mode and temperature lists are empty for the same detector types; otherwise the settings start with DYNAMICGAIN and the timing modes with AUTO_TIMING, the mode a fresh detector starts in |
| DetectorModel.IfNonNegativeQueries | slsDetectorsSimulation/src/Detector.cc:299-325 | a negative frame, trigger or gate count is a pure query, a count set twice is the second one, and a non-negative count stays non-negative |
| DetectorModel.PositionShapesAgree | slsDetectorsSimulation/src/Detector.cc:291-297 | the frame-count getters and the firmware-version getters answer alike for a non-empty position list; on the default list the first answer one value, the second nothing |
| DetectorModel.SerialNumbersDistinct | slsDetectorsSimulation/src/Detector.cc:219-230 | serial numbers of different positions differ, and the serial number less 0xFFF20000 is the position |
| DetectorCommands.FindFirst | slsDetectorsSimulation/src/Detector.cc:676 | the position found holds the character looked for |
| DetectorCommands.FindFirstIsFirst | slsDetectorsSimulation/src/Detector.cc:676 | no earlier position holds it, and nothing is found exactly when the character does not occur |
| DetectorCommands.SplitModulePrefix | slsDetectorsSimulation/src/Detector.cc:674-681 | without ':' the word is the parameter at the default position; with one, the parameter is what follows the first ':' and the position is `stoi` of what precedes it |
| DetectorCommands.ModulePrefixRoundTrip | slsDetectorsSimulation/src/Detector.cc:674-681 | a printed module number followed by ':' reads back as that module and the parameter after it |
| DetectorCommands.CommandValueIsJoin | slsDetectorsSimulation/src/Detector.cc:687-691 | the value is the arguments after the first joined by single spaces and right-trimmed |
| DetectorCommands.CommandValueSingle | slsDetectorsSimulation/src/Detector.cc:687-691 | one argument without trailing white space is the value itself |
| DetectorCommands.KeywordNames | slsDetectorsSimulation/src/Detector.cc:697-789 | every parameter word of the comparison chain is recognised as its own keyword |
| DetectorCommands.KeywordOfSpells | slsDetectorsSimulation/src/Detector.cc:697-789 | a word is recognised as a keyword only when it spells it |
| DetectorCommands.PutParameter | slsDetectorsSimulation/src/Detector.cc:696-801 | one parameter keeps the state consistent and the shared-memory id |
| DetectorCommands.Put | slsDetectorsSimulation/src/Detector.cc:662-802 | putCommand keeps the state consistent and the shared-memory id |
| DetectorCommands.PutParameterReply | slsDetectorsSimulation/src/Detector.cc:696-801 | an exception leaves the state unchanged; a word putCommand does not act on is answered with "" and changes nothing; an accepted word is answered with its value |
| DetectorCommands.PutReply | slsDetectorsSimulation/src/Detector.cc:665-685 | no argument answers ""; an exception changes nothing; a module past the last one answers "" and changes nothing |
| DetectorCommands.PutParameterZeroIsAll | slsDetectorsSimulation/src/Detector.cc:703-727 | position 0 writes like -1: every module |
| DetectorCommands.ZeroPrefixBroadcasts | slsDetectorsSimulation/src/Detector.cc:673-727 | a "0:" prefix does what no prefix does |
| DetectorCommands.PutPlain | slsDetectorsSimulation/src/Detector.cc:673-691 | without a prefix the parameter is handled at position -1 with the joined value |
| DetectorCommands.PutAddressed | slsDetectorsSimulation/src/Detector.cc:673-691 | with a "k:" prefix for an existing module the parameter is handled at position k |
| DetectorCommands.SplitAtSpace | slsDetectorsSimulation/src/Detector.cc:810-817 | a line is split at its first space into parameter and value; without a space it is all parameter |
| DetectorCommands.VersionQueryAsWrittenIndexesEmpty | slsDetectorsSimulation/src/Detector.cc:877-891 | as written the version, serial and temperature queries index an empty vector, and rx_version answers only for module 0 |
| DetectorCommands.VersionQueryAnswersVersions | slsDetectorsSimulation/src/Detector.cc:877-885 | the firmware and detector server versions are answered in hexadecimal |
| DetectorCommands.VersionQueryAnswersSerial | slsDetectorsSimulation/src/Detector.cc:880-882 | the serial number of module pos is answered in hexadecimal and reads back as 0xFFF20000 + pos |
| DetectorCommands.VersionQueryAnswersReceiver | slsDetectorsSimulation/src/Detector.cc:889-891 | the receiver version is answered in hexadecimal, as written for module 0 |
| DetectorCommands.VersionQueryAnswersTemperature | slsDetectorsSimulation/src/Detector.cc:936-941 | both temperatures answer 40 for every module |
| DetectorCommands.GetFrom | slsDetectorsSimulation/src/Detector.cc:805-945 | the line loop keeps the state consistent and the shared-memory id |
| DetectorCommands.Get | slsDetectorsSimulation/src/Detector.cc:804-946 | getCommand keeps the state consistent and the shared-memory id |
| DetectorCommands.GetOnlyAcquires | slsDetectorsSimulation/src/Detector.cc:892-893 | getCommand changes nothing but what "acquire" starts: the measurement and the run status |
| DetectorCommands.GetWithoutModules | slsDetectorsSimulation/src/Detector.cc:819-829 | with no module configured a line without prefix answers "" and changes nothing |
| DetectorCommands.GetAddressed | slsDetectorsSimulation/src/Detector.cc:819-834 | a "k:parameter" line for an existing module is answered by that parameter's query for module k |
| DetectorCommands.GetPlain | slsDetectorsSimulation/src/Detector.cc:819-834 | a line without prefix is answered by the query for module 0 |
| DetectorCommands.PutThenQueryText | slsDetectorsSimulation/src/Detector.cc:710-721 | a text parameter is answered as it was written at every module the write reached |
| DetectorCommands.PutThenQueryNumber | slsDetectorsSimulation/src/Detector.cc:722-790 | a number parameter is answered with the number read, in decimal; an unreadable value throws and changes nothing |
| DetectorCommands.PutThenQueryCount | slsDetectorsSimulation/src/Detector.cc:743-748 | a count is answered as written when not negative; a negative count is ignored |
| DetectorCommands.PutThenQueryWrite | slsDetectorsSimulation/src/Detector.cc:729-730 | "fwrite" answers "1" after a non-zero number and "0" after zero |
| DetectorCommands.PutThenQuerySettings | slsDetectorsSimulation/src/Detector.cc:701-707 | a settings name is answered as written; an unknown one as the default settings |
| DetectorCommands.PutThenQueryTiming | slsDetectorsSimulation/src/Detector.cc:708-709 | a timing mode name is answered as written; any other as "auto" |
| DetectorCommands.PutExtSig | slsDetectorsSimulation/src/Detector.cc:762-768 | "extsig n signal" with 0 <= n <= 3 stores the signal as external signal n and nothing else |
| DetectorCommands.QueryExtSig | slsDetectorsSimulation/src/Detector.cc:904-911 | "extsig" answers external signal n for 0 <= n <= 3 and "" otherwise |
| DetectorCommands.PutThenQueryExtSig | slsDetectorsSimulation/src/Detector.cc:762-768 | an external signal written is read back with the same number |
| DetectorCommands.PutHostname | slsDetectorsSimulation/src/Detector.cc:756-761 | "hostname" configures one module per host of the '+' list |
| DetectorCommands.QueryHostname | slsDetectorsSimulation/src/Detector.cc:898-903 | "hostname" answers each host followed by '+' |
| DetectorCommands.PutThenQueryHostname | slsDetectorsSimulation/src/Detector.cc:756-761 | hosts joined by '+' configure one module each and are answered in order |
| DetectorCommands.HostListOfJoin | slsDetectorsSimulation/src/Detector.cc:756-761 | splitting a '+' join of plain host names gives the names back |
| DetectorCommands.PerModuleWriteAt | slsDetectorsSimulation/src/Detector.cc:703-727 | a per-module write at pos > 0 leaves every other module as it was |
| DetectorCommands.PutSingleValue | slsDetectorsSimulation/src/Detector.cc:673-691 | a command with one value and no prefix is that parameter with that value for every module |
| DetectorCommands.PutSingleValueAddressed | slsDetectorsSimulation/src/Detector.cc:673-691 | a command with one value and a "k:" prefix is that parameter at module k |
| DetectorCommands.PutThenGetText | slsDetectorsSimulation/src/Detector.cc:662-946 | a text parameter set by putCommand is what getCommand answers |
| DetectorCommands.PutThenGetNumber | slsDetectorsSimulation/src/Detector.cc:662-946 | a number parameter set by putCommand is answered with the number read from it |
| DetectorCommands.PutThenGetAddressed | slsDetectorsSimulation/src/Detector.cc:662-946 | a per-module text parameter written to module k is answered for module k |
| DetectorCommands.HostListOfTerminated | slsDetectorsSimulation/src/Detector.cc:756-761 | hosts each followed by '+', split again at '+', give back the same hosts |
| SimDetector.AssignAt | slsDetectorsSimulation/src/Detector.cc:277-289 | the setter loop computes `Assigned` (all modules for an empty list, else the listed positions up to the first bad one) and throws exactly when a listed position is not a module |
| SimDetector.GatherAt | slsDetectorsSimulation/src/Detector.cc:173-187 | the getter loop answers `Gathered`: the whole vector, the listed entries in order, or "position not found" |
| SimDetector.GetSerialNumber | slsDetectorsSimulation/src/Detector.cc:219-230 | one serial number 0xFFF20000 + p per listed position, none for the default list |
| SimDetector.RegisterAcquisitionFinishedCallback | src/slsDetectorsSimulation/Detector.h:90-92 | always throws "not implemented" |
| SimDetector.RegisterDataCallback | src/slsDetectorsSimulation/Detector.h:94-96 | always throws "not implemented" |
| SimDetector.PackageVersion | src/slsDetectorsSimulation/Detector.h:53-59 | the package and client version are "7.0.1" |
| SimDetector.Detector.constructor | slsDetectorsSimulation/src/Detector.cc:74-94 | a new detector holds the given shared-memory id, every default and no frame to deliver |
| SimDetector.Detector.FreeSharedMemory | slsDetectorsSimulation/src/Detector.cc:101-132 | the object becomes `Defaults` of its old value |
| SimDetector.Detector.SetHostname | slsDetectorsSimulation/src/Detector.cc:189-199 | the object becomes `WithHosts(old, h)`: reset, then one module per host |
| SimDetector.Detector.GetHostname | slsDetectorsSimulation/src/Detector.cc:173-187 | answers `Gathered` of the host list |
| SimDetector.Detector.GetSettings | slsDetectorsSimulation/src/Detector.cc:261-275 | answers `Gathered` of the settings |
| SimDetector.Detector.GetHighVoltage | slsDetectorsSimulation/src/Detector.cc:363-377 | answers `Gathered` of the high voltages |
| SimDetector.Detector.GetPowerChip | slsDetectorsSimulation/src/Detector.cc:393-407 | answers `Gathered` of the chip power flags |
| SimDetector.Detector.GetFilePath | slsDetectorsSimulation/src/Detector.cc:464-478 | answers `Gathered` of the file paths |
| SimDetector.Detector.GetFileNamePrefix | slsDetectorsSimulation/src/Detector.cc:494-508 | answers `Gathered` of the file names, with the message of `getFileName` |
| SimDetector.Detector.GetAcquisitionIndex | slsDetectorsSimulation/src/Detector.cc:524-538 | answers `Gathered` of the file indices |
| SimDetector.Detector.SetSettings | slsDetectorsSimulation/src/Detector.cc:277-289 | only the settings vector changes, to `Assigned`; the state stays consistent; throws exactly for a bad listed position |
| SimDetector.Detector.SetHighVoltage | slsDetectorsSimulation/src/Detector.cc:379-391 | the same for the high voltages |
| SimDetector.Detector.SetPowerChip | slsDetectorsSimulation/src/Detector.cc:409-421 | the same for the chip power flags |
| SimDetector.Detector.SetFilePath | slsDetectorsSimulation/src/Detector.cc:480-492 | the same for the file paths |
| SimDetector.Detector.SetFileNamePrefix | slsDetectorsSimulation/src/Detector.cc:510-522 | the same for the file names |
| SimDetector.Detector.SetAcquisitionIndex | slsDetectorsSimulation/src/Detector.cc:540-552 | the same for the file indices |
| SimDetector.Detector.SetNumberOfFrames | slsDetectorsSimulation/src/Detector.cc:299-301 | only the frame count changes, and only for a non-negative value |
| SimDetector.Detector.SetNumberOfTriggers | slsDetectorsSimulation/src/Detector.cc:311-313 | only the trigger count changes, and only for a non-negative value |
| SimDetector.Detector.SetNumberOfGates | slsDetectorsSimulation/src/Detector.cc:323-325 | only the gate count changes, and only for a non-negative value |
| SimDetector.Detector.SetExptime | slsDetectorsSimulation/src/Detector.cc:335-337 | only the exposure time changes, whatever the positions |
| SimDetector.Detector.SetPeriod | slsDetectorsSimulation/src/Detector.cc:347-349 | only the period changes, whatever the positions |
| SimDetector.Detector.SetDelayAfterTrigger | slsDetectorsSimulation/src/Detector.cc:359-361 | only the delay changes, whatever the positions |
| SimDetector.Detector.SetTimingMode | slsDetectorsSimulation/src/Detector.cc:570-572 | only the timing mode changes, whatever the positions |
| SimDetector.Detector.SetDetectorType | slsDetectorsSimulation/src/Detector.cc:657-660 | stores the type, changes nothing else, and answers it |
| SimDetector.Detector.SetRxHostname | slsDetectorsSimulation/src/Detector.cc:1003-1005 | only the receiver host name changes |
| SimDetector.Detector.WriteRegister | slsDetectorsSimulation/src/Detector.cc:590-592 | one register file for all modules: only `addr` changes, to `val` |
| SimDetector.Detector.StopDetector | slsDetectorsSimulation/src/Detector.cc:448-454 | the loop leaves the object at `StopDetector(old)`: IDLE and every file index advanced |
| SimDetector.Detector.StartMeasurementNoWait | slsDetectorsSimulation/src/Detector.cc:995-1001 | the object becomes `StartMeasurement(old)` |
| SimDetector.Detector.DataWorkerStep | slsDetectorsSimulation/src/Detector.cc:1012-1028 | one pass of the worker loop is `DataStep` |
| SimDetector.Detector.PutCommand | slsDetectorsSimulation/src/Detector.cc:662-802 | the object and the reply are those of the `Put` interpreter |
| SimDetector.Detector.GetCommand | slsDetectorsSimulation/src/Detector.cc:804-946 | the object and the reply are those of the `Get` interpreter |
| SimDetector.Detector.LoadParameters | slsDetectorsSimulation/src/Detector.cc:160-171 | the loop over the lines ends in `LoadLines`: each line split at white space and put, stopping at the first exception |
| SimDetector.LoadLines | slsDetectorsSimulation/src/Detector.cc:160-171 | running lines through putCommand keeps the state consistent and the shared-memory id |
| SimDetector.Detector.DumpDetectorSetup | slsDetectorsSimulation/src/Detector.cc:594-633 | a file that opens receives `SetupLines` of the state, each line ended by a line break, and the reply is 0; a file that does not open receives nothing and the reply is 1 |
| SimDetector.Detector.HostField | slsDetectorsSimulation/src/Detector.cc:601-605 | the hostname line's value: every host followed by '+' |
| SimDetector.Detector.ExtSigLines | slsDetectorsSimulation/src/Detector.cc:611-612 | one "extsig i signal" line for each of the four external signals |
| SimDetector.Detector.ModuleLines | slsDetectorsSimulation/src/Detector.cc:620-626 | the five lines of every module's block, module by module |
| SimDetector.Detector.RetrieveDetectorSetup | slsDetectorsSimulation/src/Detector.cc:635-655 | every line of the file, the empty one after the last line break included, goes through putCommand as in `LoadLines`; an exception propagates, otherwise the reply is 0, also for a file that does not open |
| SimDetector.SetupClean | slsDetectorsSimulation/src/Detector.cc:594-633 | no dumped line holds a line break when no field does, so the file splits back into the dumped lines |
| SimDetector.HostLineLoads | slsDetectorsSimulation/src/Detector.cc:601-605 | the dumped hostname line, read back, resets the detector to one module per dumped host (`WithHosts`) and answers the dumped value |
| SimDetector.BlockLoads | slsDetectorsSimulation/src/Detector.cc:620-626 | a module's dumped block, read back, sets that module's settings, high voltage, file path, file name and file index and nothing else |
| SimDetector.ModulesLoad | slsDetectorsSimulation/src/Detector.cc:620-626 | read back in order, the blocks of modules 0 .. k-1 leave module j < k with its dumped values and every later module with module 0's, since a "0:" prefix writes every module |
| SimDetector.LoadKeeping | slsDetectorsSimulation/src/Detector.cc:607-618 | detector-wide lines that throw nothing and leave hosts and modules alone, read back, leave hosts and modules alone |
| SimDetector.DumpThenRetrieve | slsDetectorsSimulation/src/Detector.cc:594-655 | reading back what was dumped, into any detector, throws nothing and restores the hosts and every module's settings, high voltage, file path, file name and file index |
| UsersTables.RunStatusTypeNames | slsDetectorsSimulation/src/slsDetectorUsers.h:188-198 | codes 0 to 5 have distinct names and every other code is "unknown" |
| UsersTables.SettingsRoundTrip | slsDetectorsSimulation/src/slsDetectorUsers.h:200-222 | the name of a settings index 0..6 reads back as that index |
| UsersTables.SettingsIndexInverse | slsDetectorsSimulation/src/slsDetectorUsers.h:200-222 | a known name is the name of its index; an unknown name is -1 and an unknown index "undefined" |
| UsersTables.TimingModeRoundTrip | slsDetectorsSimulation/src/slsDetectorUsers.h:224-245 | the timing tables are inverse on 0..4; other values are "unknown" and -1 |
| UsersTables.TypeReplyNames | slsDetectorsSimulation/src/slsDetectorUsers.cc:519-526 | only the Gotthard and Jungfrau codes get their own name, every other code "Undefined" |
| UsersTables.RegisterCallbackThrows | slsDetectorsSimulation/src/slsDetectorUsers.h:112-177 | every stub throws, and different stubs throw different messages |
| UsersModel.UsersDefaults | slsDetectorsSimulation/src/slsDetectorUsers.cc:22-91 | the constructor's state has four external signals |
| UsersModel.DefaultsDescribe | slsDetectorsSimulation/src/slsDetectorUsers.cc:22-91 | a new detector is idle, standard, auto timing, "Undefined" type, corrections and writing off, file "run" index 0, 16 bits, ports 1952/1953/1954/50001, signals "off" |
| UsersModel.TriStateQueries | slsDetectorsSimulation/src/slsDetectorUsers.cc:185-243 | after a set, a query keeps the flag and answers what was set; setting twice is setting once |
| UsersModel.SentinelQueries | slsDetectorsSimulation/src/slsDetectorUsers.cc:286-390 | a negative argument is a pure query; setting twice is setting once |
| UsersModel.SetDetectorSizeAsWrittenLocks | slsDetectorsSimulation/src/slsDetectorUsers.cc:259-270 | as written, a call with -1 arguments makes the size -1 x -1 and no later call changes it |
| UsersModel.SetDetectorSizeQueries | slsDetectorsSimulation/src/slsDetectorUsers.cc:259-270 | -1 arguments are a pure query, a non-negative size stays non-negative, and the last written size is kept |
| UsersModel.NeededFrames | slsDetectorsSimulation/src/slsDetectorUsers.cc:961-967 | frames x max(gates, 1) x max(cycles, 1): not negative for non-negative counts, the frames alone for gates and cycles up to 1 |
| UsersModel.StartMeasurement | slsDetectorsSimulation/src/slsDetectorUsers.cc:961-967 | running, with the countdown at NeededFrames and nothing else changed |
| UsersModel.StopMeasurement | slsDetectorsSimulation/src/slsDetectorUsers.cc:127-131 | idle and the next file index, nothing else changed |
| UsersModel.MeasurementRunsOut | slsDetectorsSimulation/src/slsDetectorUsers.cc:973-995 | with m frames to go the measurement runs m more passes and stops at the next |
| UsersModel.MeasurementCompletes | slsDetectorsSimulation/src/slsDetectorUsers.cc:961-995 | a started measurement ends idle after NeededFrames + 1 passes, file index one higher, the rest unchanged |
| UsersModel.IdleStaysIdle | slsDetectorsSimulation/src/slsDetectorUsers.cc:973-995 | the worker leaves a detector that is not running alone |
| SimDetectorUsers.DetectorUsers.constructor | slsDetectorsSimulation/src/slsDetectorUsers.cc:22-91 | the object holds the defaults |
| SimDetectorUsers.DetectorUsers.SetOnline | slsDetectorsSimulation/src/slsDetectorUsers.cc:103-113 | only the online flag changes, by the tri-state rule, and the reply is 1 iff online |
| SimDetectorUsers.DetectorUsers.EnableFlatFieldCorrection | slsDetectorsSimulation/src/slsDetectorUsers.cc:185-195 | only that correction flag changes, by the tri-state rule |
| SimDetectorUsers.DetectorUsers.EnableCountRateCorrection | slsDetectorsSimulation/src/slsDetectorUsers.cc:197-207 | only that correction flag changes, by the tri-state rule |
| SimDetectorUsers.DetectorUsers.EnablePixelMaskCorrection | slsDetectorsSimulation/src/slsDetectorUsers.cc:209-219 | only that correction flag changes, by the tri-state rule |
| SimDetectorUsers.DetectorUsers.EnableAngularConversion | slsDetectorsSimulation/src/slsDetectorUsers.cc:221-231 | only that correction flag changes, by the tri-state rule |
| SimDetectorUsers.DetectorUsers.EnableWriteToFile | slsDetectorsSimulation/src/slsDetectorUsers.cc:233-243 | only the file-writing flag changes, by the tri-state rule |
| SimDetectorUsers.DetectorUsers.SetFilePath | slsDetectorsSimulation/src/slsDetectorUsers.cc:141-144 | stores and returns the path |
| SimDetectorUsers.DetectorUsers.SetFileName | slsDetectorsSimulation/src/slsDetectorUsers.cc:150-153 | stores and returns the name |
| SimDetectorUsers.DetectorUsers.SetFileIndex | slsDetectorsSimulation/src/slsDetectorUsers.cc:159-162 | stores and returns any index |
| SimDetectorUsers.DetectorUsers.SetFlatFieldCorrectionDir | slsDetectorsSimulation/src/slsDetectorUsers.cc:168-171 | stores and returns the directory |
| SimDetectorUsers.DetectorUsers.SetFlatFieldCorrectionFile | slsDetectorsSimulation/src/slsDetectorUsers.cc:177-183 | stores the file; answers 0 exactly for "" and 1 otherwise |
| SimDetectorUsers.DetectorUsers.SetDetectorSize | slsDetectorsSimulation/src/slsDetectorUsers.cc:259-270 | as written: x0 and y0 follow the sentinel rule, nx and ny are overwritten whenever the stored size is non-negative (so the default -1 arguments store -1 x -1); the reply is 0 |
| SimDetectorUsers.DetectorUsers.GetDetectorSize | slsDetectorsSimulation/src/slsDetectorUsers.cc:272-279 | answers the stored geometry |
| SimDetectorUsers.DetectorUsers.SetBitDepth | slsDetectorsSimulation/src/slsDetectorUsers.cc:286-291 | only the bit depth changes, by the sentinel rule, and is returned |
| SimDetectorUsers.DetectorUsers.SetSettings | slsDetectorsSimulation/src/slsDetectorUsers.cc:293-298 | only the settings change, by the sentinel rule |
| SimDetectorUsers.DetectorUsers.SetThresholdEnergy | slsDetectorsSimulation/src/slsDetectorUsers.cc:304-309 | only the threshold changes, by the sentinel rule |
| SimDetectorUsers.DetectorUsers.SetBeamEnergy | slsDetectorsSimulation/src/slsDetectorUsers.cc:315-320 | only the beam energy changes, by the sentinel rule |
| SimDetectorUsers.DetectorUsers.SetReceiverMode | slsDetectorsSimulation/src/slsDetectorUsers.cc:528-533 | only the receiver mode changes, by the sentinel rule |
| SimDetectorUsers.DetectorUsers.SetNumberOfGates | slsDetectorsSimulation/src/slsDetectorUsers.cc:364-369 | only the gate count changes, by the sentinel rule |
| SimDetectorUsers.DetectorUsers.SetNumberOfFrames | slsDetectorsSimulation/src/slsDetectorUsers.cc:371-376 | only the frame count changes, by the sentinel rule |
| SimDetectorUsers.DetectorUsers.SetNumberOfCycles | slsDetectorsSimulation/src/slsDetectorUsers.cc:378-383 | only the cycle count changes, by the sentinel rule |
| SimDetectorUsers.DetectorUsers.SetTimingMode | slsDetectorsSimulation/src/slsDetectorUsers.cc:385-390 | only the timing mode changes, by the sentinel rule |
| SimDetectorUsers.DetectorUsers.SetDetectorType | slsDetectorsSimulation/src/slsDetectorUsers.cc:514-517 | stores and returns any code |
| SimDetectorUsers.DetectorUsers.GetDetectorType | slsDetectorsSimulation/src/slsDetectorUsers.cc:519-526 | answers one of "Undefined", "Gotthard", "Jungfrau" |
| SimDetectorUsers.DetectorUsers.SetRxHostname | slsDetectorsSimulation/src/slsDetectorUsers.cc:969-971 | only the receiver host name changes |
| SimDetectorUsers.DetectorUsers.StartMeasurementNoWait | slsDetectorsSimulation/src/slsDetectorUsers.cc:961-967 | the object becomes `StartMeasurement` of its old value |
| SimDetectorUsers.DetectorUsers.StopMeasurement | slsDetectorsSimulation/src/slsDetectorUsers.cc:127-131 | the object becomes `StopMeasurement` of its old value |
| SimDetectorUsers.DetectorUsers.DataWorkerStep | slsDetectorsSimulation/src/slsDetectorUsers.cc:976-993 | one pass of the worker loop is `DataStep` |
| SimDetectorUsers.DetectorUsers.PutCommand | slsDetectorsSimulation/src/slsDetectorUsers.cc:559-734 | the object and the reply are those of the `Put` interpreter |
| SimDetectorUsers.DetectorUsers.GetCommand | slsDetectorsSimulation/src/slsDetectorUsers.cc:736-920 | the object and the reply are those of the `Get` interpreter |
| SimDetectorUsers.DetectorUsers.ReadConfigurationFile | slsDetectorsSimulation/src/slsDetectorUsers.cc:425-445 | the object and the outcome are `ReadLines` of the file's lines |
| SimDetectorUsers.ReadLines | slsDetectorsSimulation/src/slsDetectorUsers.cc:425-445 | running lines through putCommand keeps four external signals |
| SimDetectorUsers.ReadLinesAppend | slsDetectorsSimulation/src/slsDetectorUsers.cc:425-445 | reading two files in turn is reading their concatenation, unless the first throws |
| UsersCommands.KeywordNames | slsDetectorsSimulation/src/slsDetectorUsers.cc:589-724 | every parameter word of the putCommand and getCommand chains is recognised as its own keyword |
| UsersCommands.KeywordOfSpells | slsDetectorsSimulation/src/slsDetectorUsers.cc:589-724 | a word is recognised as a keyword only when it spells it |
| UsersCommands.WithText | slsDetectorsSimulation/src/slsDetectorUsers.cc:589-720 | writing a text parameter makes it hold exactly the text written |
| UsersCommands.WithNumber | slsDetectorsSimulation/src/slsDetectorUsers.cc:596-724 | writing a number parameter makes it hold exactly the number written |
| UsersCommands.WithCount | slsDetectorsSimulation/src/slsDetectorUsers.cc:615-626 | a count parameter follows the sentinel rule of its setter |
| UsersCommands.WithFlag | slsDetectorsSimulation/src/slsDetectorUsers.cc:607-608 | a flag parameter follows the tri-state rule of its setter |
| UsersCommands.DisableIfNone | slsDetectorsSimulation/src/slsDetectorUsers.cc:631-634 | switching a correction off keeps four external signals |
| UsersCommands.PutParameter | slsDetectorsSimulation/src/slsDetectorUsers.cc:589-729 | one parameter: an exception changes nothing, an unknown word answers "" and changes nothing, and an accepted word answers the value |
| UsersCommands.PutAddressee | slsDetectorsSimulation/src/slsDetectorUsers.cc:568-577 | a word without ':' is the parameter itself |
| UsersCommands.Put | slsDetectorsSimulation/src/slsDetectorUsers.cc:559-734 | putCommand keeps four external signals |
| UsersCommands.PutReply | slsDetectorsSimulation/src/slsDetectorUsers.cc:559-583 | no arguments, or a prefix that is not this controller's id, answer "" and change nothing; otherwise the parameter is handled with the joined, right-trimmed value; an exception changes nothing |
| UsersCommands.PrintedIdIsZero | slsDetectorsSimulation/src/slsDetectorUsers.cc:573 | the printed id matches "0" exactly for controller 0 |
| UsersCommands.PutAddresseePrefixed | slsDetectorsSimulation/src/slsDetectorUsers.cc:568-577 | a word "k:parameter" is for this controller exactly when k is 0 |
| UsersCommands.PutForController | slsDetectorsSimulation/src/slsDetectorUsers.cc:568-577 | another controller's prefix answers "" and changes nothing; "0:" is the same as no prefix |
| UsersCommands.PutSingleValue | slsDetectorsSimulation/src/slsDetectorUsers.cc:568-583 | a plain word with one value is that parameter with that value |
| UsersCommands.PutDisablesCorrection | slsDetectorsSimulation/src/slsDetectorUsers.cc:631-635 | "flatfield", "badchannels" and "angconv" keep the value; "" or "none" also switch their correction off, anything else leaves it |
| UsersCommands.GetAddressee | slsDetectorsSimulation/src/slsDetectorUsers.cc:751-759 | a line word without ':' is the parameter itself |
| UsersCommands.Respond | slsDetectorsSimulation/src/slsDetectorUsers.cc:762-917 | a line that does not answer leaves the state, or starts a measurement for "acquire" |
| UsersCommands.GetLine | slsDetectorsSimulation/src/slsDetectorUsers.cc:742-917 | the same for a whole line |
| UsersCommands.GetFrom | slsDetectorsSimulation/src/slsDetectorUsers.cc:737-919 | the line loop keeps four external signals |
| UsersCommands.Get | slsDetectorsSimulation/src/slsDetectorUsers.cc:736-920 | getCommand keeps four external signals |
| UsersCommands.GetOnlyAcquires | slsDetectorsSimulation/src/slsDetectorUsers.cc:839-840 | getCommand changes nothing but what "acquire" starts |
| UsersCommands.GetFromShift | slsDetectorsSimulation/src/slsDetectorUsers.cc:737 | the loop from line i + 1 of [line] + rest is the loop from line i of rest |
| UsersCommands.GetLineSkips | slsDetectorsSimulation/src/slsDetectorUsers.cc:755-756 | a line for another controller, or naming no known parameter, is gone past |
| UsersCommands.GetAnswers | slsDetectorsSimulation/src/slsDetectorUsers.cc:737-919 | getCommand answers at the first line that answers |
| UsersCommands.GetFromStep | slsDetectorsSimulation/src/slsDetectorUsers.cc:737-919 | from line i: that line's answer, or the lines after it in the state it leaves |
| UsersCommands.GetFromSkips | slsDetectorsSimulation/src/slsDetectorUsers.cc:755-756 | a line that leaves the state is gone past |
| UsersCommands.GetForOtherController | slsDetectorsSimulation/src/slsDetectorUsers.cc:751-756 | "k:parameter" for another controller is gone past with the state unchanged |
| UsersCommands.GetPlain | slsDetectorsSimulation/src/slsDetectorUsers.cc:742-917 | a plain parameter line is answered by that parameter's query |
| UsersCommands.PutThenQueryText | slsDetectorsSimulation/src/slsDetectorUsers.cc:589-720 | a text parameter is answered as written |
| UsersCommands.PutThenQueryNumber | slsDetectorsSimulation/src/slsDetectorUsers.cc:596-724 | a number parameter is answered with the number read; an unreadable value throws and changes nothing |
| UsersCommands.PutThenQueryCount | slsDetectorsSimulation/src/slsDetectorUsers.cc:615-626 | a count is answered as written when not negative; a negative count or an unreadable value leaves the state |
| UsersCommands.PutThenQueryFlag | slsDetectorsSimulation/src/slsDetectorUsers.cc:607-608 | "enablefwrite" and "online" answer "0" after 0, "1" after 1, and as before otherwise |
| UsersCommands.PutThenQueryTables | slsDetectorsSimulation/src/slsDetectorUsers.cc:595-600 | a settings name is answered as written, any other word as "undefined"; a timing name likewise, otherwise "unknown" |
| UsersCommands.PutThenQueryStatus | slsDetectorsSimulation/src/slsDetectorUsers.cc:651-655 | "status start" then answers "running", "status stop" "idle" |
| UsersCommands.WithTextRestores | slsDetectorsSimulation/src/slsDetectorUsers.cc:589-720 | writing a text parameter changes nothing else |
| UsersCommands.WithNumberRestores | slsDetectorsSimulation/src/slsDetectorUsers.cc:596-724 | writing a number parameter changes nothing else |
| UsersCommands.VersionReplies | slsDetectorsSimulation/src/slsDetectorUsers.cc:821-838 | every version parameter is answered in hexadecimal, reading back as the number modulo 2^64 |
| UsersCommands.VersionNumbers | slsDetectorsSimulation/src/slsDetectorUsers.cc:535-557 | the module numbers are -1 (2^64 - 1 in hexadecimal), the other versions their positive constants |
| UsersCommands.PutExtSigUnprefixed | slsDetectorsSimulation/src/slsDetectorUsers.cc:568-577 | a bare "extsig:0" is read as a prefix "extsig" and answered "" without change |
| UsersCommands.GetExtSigUnprefixed | slsDetectorsSimulation/src/slsDetectorUsers.cc:751-754 | getCommand throws on a bare "extsig:0" |
| UsersCommands.PutExtSigPrefixed | slsDetectorsSimulation/src/slsDetectorUsers.cc:662-669 | the form the setup dump writes (line 466), "0:extsig:0", sets external signal 0 and no other |
| SimReceiver.Channels | slsDetectorsSimulation/src/Receiver.cc:18-22 | only Gotthard (1280) and Jungfrau (1024 x 512) have channels |
| SimReceiver.GainLevel | slsDetectorsSimulation/src/Receiver.cc:405-437 | the gain kept is the one asked for when the type's table has it, UNINITIALIZED otherwise, and its level is in that table |
| SimReceiver.GainLevelStable | slsDetectorsSimulation/src/Receiver.cc:25-42 | looking up the gain found changes nothing; every type but Gotthard falls back to UNINITIALIZED with baseline 81 and noise 12 |
| SimReceiver.PortFromArgv | slsDetectorsSimulation/src/Receiver.cc:117-123 | the argv loop ends in `ScanPort` of argv from the default port |
| SimReceiver.ScanPortWithoutFlag | slsDetectorsSimulation/src/Receiver.cc:117-123 | without a port flag the default port stays |
| SimReceiver.ScanPortAppend | slsDetectorsSimulation/src/Receiver.cc:117-123 | scanning a complete list and more is scanning the rest from the port the first part left |
| SimReceiver.LastPortWins | slsDetectorsSimulation/src/Receiver.cc:117-123 | the last flag's value wins and a flag without a value is ignored |
| SimReceiver.PortConstructorArgv | slsDetectorsSimulation/src/Receiver.cc:136-145 | the argv that `Receiver(port)` builds reads back as that port |
| SimReceiver.Initial | slsDetectorsSimulation/src/Receiver.cc:96-113 | the constructor's receiver is stopped and holds the port |
| SimReceiver.Start | slsDetectorsSimulation/src/Receiver.cc:265-302 | "start" keeps the frame counters' file invariant |
| SimReceiver.Stop | slsDetectorsSimulation/src/Receiver.cc:304-326 | "stop" leaves the receiver stopped |
| SimReceiver.FrameStep | slsDetectorsSimulation/src/Receiver.cc:197-221 | one frame keeps the frame counters' file invariant |
| SimReceiver.SetGainState | slsDetectorsSimulation/src/Receiver.cc:405-437 | setGain changes at most the setting |
| SimReceiver.Command | slsDetectorsSimulation/src/Receiver.cc:258-403 | processCommand keeps the frame counters' file invariant |
| SimReceiver.Receiver.constructor | slsDetectorsSimulation/src/Receiver.cc:96-113 | the object is `Initial(port)` with an empty buffer |
| SimReceiver.Receiver.RegisterCallBackStartAcquisition | slsDetectorsSimulation/src/Receiver.cc:158-161 | only the start callback changes |
| SimReceiver.Receiver.RegisterCallBackAcquisitionFinished | slsDetectorsSimulation/src/Receiver.cc:163-167 | only the finish callback changes |
| SimReceiver.Receiver.RegisterCallBackRawDataReady | slsDetectorsSimulation/src/Receiver.cc:169-172 | only the data callback changes |
| SimReceiver.Receiver.SetGain | slsDetectorsSimulation/src/Receiver.cc:405-437 | the buffer is unchanged for the current setting, otherwise refilled with samples of the looked-up level packed with the looked-up gain |
| SimReceiver.Receiver.SetDetectorType | slsDetectorsSimulation/src/Receiver.cc:346-369 | a buffer of two samples for a new type, then setGain of the setting, which changes nothing |
| SimReceiver.Receiver.ProcessCommand | slsDetectorsSimulation/src/Receiver.cc:258-403 | the scalar members follow `Command`; the buffer is replaced exactly on a change of type and refilled exactly on a change of setting |
| SimReceiver.Receiver.DataStep | slsDetectorsSimulation/src/Receiver.cc:197-221 | one turn of the data thread is `FrameStep` |
| SimReceiver.StartOnce | slsDetectorsSimulation/src/Receiver.cc:265-302 | "start" while started or without channels changes nothing, otherwise starts; a second "start" changes nothing |
| SimReceiver.StopOnce | slsDetectorsSimulation/src/Receiver.cc:304-326 | "stop" leaves the receiver stopped and a second "stop" changes nothing |
| SimReceiver.OneArgumentOnly | slsDetectorsSimulation/src/Receiver.cc:328-401 | every other command needs exactly one argument |
| SimReceiver.SettingsCommand | slsDetectorsSimulation/src/Receiver.cc:395-400 | "settings g" sets the looked-up gain unless g is the setting, and refills the buffer just then |
| SimReceiver.DetectorTypeCommand | slsDetectorsSimulation/src/Receiver.cc:346-369 | "detectortype t" sets the type and never the setting; the buffer is replaced exactly when the type changes |
| SimReceiver.OtherCommand | slsDetectorsSimulation/src/Receiver.cc:258-403 | any other command keeps the type and the buffer |
| SimReceiver.NumberCommands | slsDetectorsSimulation/src/Receiver.cc:383-393 | "findex n" keeps n modulo 2^64; "fwrite n" turns writing on for any n but 0 |
| SimReceiver.NumberCommandThrows | slsDetectorsSimulation/src/Receiver.cc:346-400 | an unreadable number throws and changes nothing |
| SimReceiver.FrameStepRollsOver | slsDetectorsSimulation/src/Receiver.cc:209-216 | a new file is opened exactly when the frame is MAX_FRAMES_PER_FILE past the file's first frame, and that frame starts it |
| SimReceiver.RolloverOpensNewPath | slsDetectorsSimulation/src/Receiver.cc:209-216 | with the intended file names, the file a rollover opens has a path other than the file it replaces |
| SimReceiverUsers.UsersPortFromArgv | slsDetectorsSimulation/src/slsReceiverUsers.cc:32-39 | the argv loop ends in `UsersScan` of argv from the default port |
| SimReceiverUsers.UsersScanSkip | slsDetectorsSimulation/src/slsReceiverUsers.cc:32-39 | an element that does not set the port is passed over |
| SimReceiverUsers.UsersPortOneElement | slsDetectorsSimulation/src/slsReceiverUsers.cc:32-39 | one element "--rx_tcpport N" sets port N |
| SimReceiverUsers.UsersPortTwoElements | slsDetectorsSimulation/src/slsReceiverUsers.cc:32-39 | flag and number as two elements leave the default port |
| SimReceiverUsers.UsersInitial | slsDetectorsSimulation/src/slsReceiverUsers.cc:16-30 | the constructor's receiver is not started, not acquiring, with no frame counted |
| SimReceiverUsers.Short | slsDetectorsSimulation/src/slsReceiverUsers.cc:200 | the setting truncated to a signed 16-bit value, equal to it modulo 2^16 |
| SimReceiverUsers.UsersLevel | slsDetectorsSimulation/src/slsReceiverUsers.cc:203-215 | every setting has a level: low, medium and very high gain their own, any other the high-gain one |
| SimReceiverUsers.BlockUnpacks | slsDetectorsSimulation/src/slsReceiverUsers.cc:200-220 | every sample of a filled frame carries the setting's two low bits as gain and an adc value in the level's band |
| SimReceiverUsers.UsersStart | slsDetectorsSimulation/src/slsReceiverUsers.cc:135-158 | "start" leaves an acquisition running |
| SimReceiverUsers.UsersStop | slsDetectorsSimulation/src/slsReceiverUsers.cc:159-176 | "stop" leaves no acquisition running |
| SimReceiverUsers.UsersRawData | slsDetectorsSimulation/src/slsReceiverUsers.cc:177-243 | "rawdata" keeps the frame counters' file invariant |
| SimReceiverUsers.Piece | slsDetectorsSimulation/src/slsReceiverUsers.cc:131-255 | a command that ends the read changes nothing |
| SimReceiverUsers.Step | slsDetectorsSimulation/src/slsReceiverUsers.cc:126-131 | one piece keeps the frame counters' file invariant |
| SimReceiverUsers.Read | slsDetectorsSimulation/src/slsReceiverUsers.cc:122-256 | one read keeps the frame counters' file invariant |
| SimReceiverUsers.ReceiverUsers.constructor | slsDetectorsSimulation/src/slsReceiverUsers.cc:16-30 | the object is `UsersInitial(port)` with a frame buffer of the build's channels |
| SimReceiverUsers.ReceiverUsers.Start | slsDetectorsSimulation/src/slsReceiverUsers.cc:60-63 | only the start flag is set; the reply is 0 |
| SimReceiverUsers.ReceiverUsers.Stop | slsDetectorsSimulation/src/slsReceiverUsers.cc:65-67 | only the start flag is cleared |
| SimReceiverUsers.ReceiverUsers.CloseFile | slsDetectorsSimulation/src/slsReceiverUsers.cc:55-58 | always throws "slsReceiverUsers::closeFile not implemented" |
| SimReceiverUsers.ReceiverUsers.RegisterCallBackStartAcquisition | slsDetectorsSimulation/src/slsReceiverUsers.cc:73-76 | only the start callback changes |
| SimReceiverUsers.ReceiverUsers.RegisterCallBackAcquisitionFinished | slsDetectorsSimulation/src/slsReceiverUsers.cc:78-82 | only the finish callback changes |
| SimReceiverUsers.ReceiverUsers.RegisterCallBackRawDataReady | slsDetectorsSimulation/src/slsReceiverUsers.cc:84-89 | only the data callback changes |
| SimReceiverUsers.ReceiverUsers.ProcessPiece | slsDetectorsSimulation/src/slsReceiverUsers.cc:131-255 | the members follow `Piece`; a filling "rawdata" writes the frame of the new frame number at the old setting, anything else leaves the buffer |
| SimReceiverUsers.ReceiverUsers.ProcessStep | slsDetectorsSimulation/src/slsReceiverUsers.cc:126-131 | one non-empty piece follows `Step`, and the buffer shows its fill |
| SimReceiverUsers.ReceiverUsers.ProcessRead | slsDetectorsSimulation/src/slsReceiverUsers.cc:122-256 | the read loop follows `Read`, and the buffer shows the last frame filled |
| SimReceiverUsers.ReadSkip | slsDetectorsSimulation/src/slsReceiverUsers.cc:127 | an empty piece is passed over |
| SimReceiverUsers.ReadStopsAt | slsDetectorsSimulation/src/slsReceiverUsers.cc:133-134 | a piece that ends the read is the read's result |
| SimReceiverUsers.ReadGoesOn | slsDetectorsSimulation/src/slsReceiverUsers.cc:126-256 | after a piece that goes on, the read continues in the state it left, keeping its fill if no later one |
| SimReceiverUsers.UsersStartStopOnce | slsDetectorsSimulation/src/slsReceiverUsers.cc:135-181 | "start" while acquiring, "stop" and "rawdata" while not, change nothing; "start" and "stop" twice are once |
| SimReceiverUsers.RawDataCountsOne | slsDetectorsSimulation/src/slsReceiverUsers.cc:177-184 | each accepted "rawdata" counts exactly one frame and keeps the setting and the acquisition |
| SimReceiverUsers.UsersOneWord | slsDetectorsSimulation/src/slsReceiverUsers.cc:244-254 | a parameter command without a second word changes nothing |
| SimReceiverUsers.UsersSettingsCommand | slsDetectorsSimulation/src/slsReceiverUsers.cc:252-253 | "settings n" stores n itself |
| SimReceiverUsers.UsersNumberThrows | slsDetectorsSimulation/src/slsReceiverUsers.cc:248-253 | an unreadable number drops the connection and changes nothing |
| SimReceiverUsers.ReadStops | slsDetectorsSimulation/src/slsReceiverUsers.cc:122-256 | empty pieces are skipped and nothing after a "bye" or a dropped connection is read |
| SimReceiverUsers.RawDataRollsOver | slsDetectorsSimulation/src/slsReceiverUsers.cc:227-236 | with a data callback and writing on, a new file is opened exactly when the frame is MAX_FRAMES_PER_FILE past the file's first frame |
| RawFiles.Join | slsDetectorsSimulation/src/Receiver.cc:253 | the directory and the name with or without one '/' between them |
| RawFiles.CutExtension | slsDetectorsSimulation/src/Receiver.cc:253 | what is kept is a prefix of the path that stops just before a '.' |
| RawFiles.CutExtensionAppend | slsDetectorsSimulation/src/Receiver.cc:253 | a tail without '.' or '/' does not move the extension; a tail with a '/' leaves none |
| RawFiles.FileNameWithoutDot | slsDetectorsSimulation/src/Receiver.cc:247-256 | for a prefix without '.', the name as written is the intended one |
| RawFiles.FileNameAsWrittenIgnoresFrame | slsDetectorsSimulation/src/Receiver.cc:247-256 | with a '.' in the prefix, the name as written no longer depends on the first frame or the index |
| RawFiles.FileNameAsWrittenCollides | slsDetectorsSimulation/src/Receiver.cc:247-256 | prefix "run.v1" in "/tmp" names every file "/tmp/run.raw" |
| RawFiles.FileNameInjective | slsDetectorsSimulation/src/Receiver.cc:247-256 | the intended names are equal exactly when the first frame and the index are |
| PixelWords.Adc14 | src/slsReceiver/JungfrauReceiver.cc:15 | the Jungfrau and Gotthard adc value is below 2^14 |
| PixelWords.Gain14 | src/slsReceiver/JungfrauReceiver.cc:16 | the Jungfrau and Gotthard gain of a 16-bit word is below 4 |
| PixelWords.Adc12 | src/slsReceiver/Gotthard2Receiver.cc:13 | the Gotthard-II adc value is below 2^12 |
| PixelWords.Gain12 | src/slsReceiver/Gotthard2Receiver.cc:14 | the Gotthard-II gain is below 4 |
| PixelWords.Split14Lossless | src/slsReceiver/JungfrauReceiver.cc:126-135 | gain and adc put together give the word back |
| PixelWords.Split12DropsTop | src/slsReceiver/Gotthard2Receiver.cc:69-78 | the Gotthard-II split keeps bits 0-13 and drops bits 14-15 |
| PixelWords.PackedUnpacks | slsDetectorsSimulation/src/Receiver.cc:432-433 | a packed sample splits back into its value and the gain's two low bits |
| PixelWords.Value | slsDetectorsSimulation/src/Receiver.cc:432 | a sample lies in [baseline, baseline + noise) |
| PixelWords.SamplesUnpack | slsDetectorsSimulation/src/Receiver.cc:429-434 | every sample of a block carries the gain bits and an adc value in the level's band |
| PixelWords.FillSamples | slsDetectorsSimulation/src/Receiver.cc:429-434 | the fill loop writes the sample block to the first n words and leaves the rest |
| PixelWords.Masks14 | src/slsReceiver/JungfrauReceiver.cc:131-132 | the C++ masks and shift compute `Adc14` and `Gain14` |
| PixelWords.Masks12 | src/slsReceiver/Gotthard2Receiver.cc:75-76 | the C++ masks and shift compute `Adc12` and `Gain12` |
| PixelWords.PackIsOr | slsDetectorsSimulation/src/Receiver.cc:433 | or-ing the gain shifted by 14 into a sample below 2^14 is `Packed` |
| ReceiverDevices.DetectorSize | src/slsReceiver/JungfrauReceiver.cc:112-114 | every detector's frame has pixels |
| ReceiverDevices.ShapesFit | src/slsReceiver/JungfrauReceiver.cc:117-124 | the display shape holds one frame, the DAQ shape a train, and the DAQ shape is the display shape reversed followed by the frames |
| ReceiverDevices.SplitOf | src/slsReceiver/JungfrauReceiver.cc:126-135 | Jungfrau and Gotthard keep all 16 bits; Gotthard-II keeps 12 bits of adc and 2 of gain |
| ReceiverDevices.MasksOf | src/slsReceiver/GotthardReceiver.cc:69-78 | each device's masks and shifts compute its adc and gain |
| ReceiverDevices.UnpackedFrame | src/slsReceiver/JungfrauReceiver.cc:126-135 | pixel i of an unpacked frame is word idx * size + i of the raw buffer, taken apart |
| ReceiverDevices.SpliceTwice | src/slsReceiver/JungfrauReceiver.cc:126-135 | unpacking the same frame place twice leaves only the second |
| ReceiverDevices.UnpackRawData | src/slsReceiver/JungfrauReceiver.cc:126-135 | the loop writes the frame's adc and gain from the offset on and leaves the rest of both arrays |
| ReceiverDevices.MemoryCell | src/slsReceiver/JungfrauReceiver.cc:105-110 | bits 8-11 of the debug field for Jungfrau (below 16), 255 for the others |
| ReceiverDevices.NewTrainRule | src/slsReceiver/JungfrauReceiver.cc:83-102 | outside burst mode a train is new iff its id is above the last; in burst mode iff the memory cell is the start cell |
| TrainBuffers.Resized | slsReceiver/src/SlsReceiver.hh:68-71 | a resized vector has the new length |
| TrainBuffers.ResizedKeeps | slsReceiver/src/SlsReceiver.hh:68-71 | it agrees with the old one where both have entries and is 0 beyond |
| TrainBuffers.Empty | slsReceiver/src/SlsReceiver.hh:63-84 | an empty buffer has the sizes of a train |
| TrainBuffers.ClearedIsEmpty | slsReceiver/src/SlsReceiver.hh:76-84 | a reset buffer is the empty one of its size whatever it held, and resetting twice is once |
| TrainBuffers.DetectorData.constructor | slsReceiver/src/SlsReceiver.hh:34 | no frames, no pixels, empty vectors |
| TrainBuffers.DetectorData.Free | slsReceiver/src/SlsReceiver.hh:53-61 | the size becomes 0 |
| TrainBuffers.DetectorData.Resize | slsReceiver/src/SlsReceiver.hh:63-74 | arrays for a whole train, each vector resized to one entry per frame, the rest kept |
| TrainBuffers.DetectorData.Reset | slsReceiver/src/SlsReceiver.hh:76-84 | the buffer becomes `Cleared` of what it held |
| TrainBuffers.DetectorData.ResetTimestamp | slsReceiver/src/SlsReceiver.hh:86-88 | only the train stamp changes |
| SlsReceivers.WarnedAllLogs | src/slsReceiver/SlsReceiver.cc:426-434 | from any count up to 11, a run of warnings logs the first ones up to ten in all, then the notice once, and the count stops at 11 |
| SlsReceivers.WarningsPerAcquisition | src/slsReceiver/SlsReceiver.cc:426-434 | from the start of an acquisition the first ten warnings are logged, an eleventh brings the notice, nothing after it |
| SlsReceivers.Started | src/slsReceiver/SlsReceiver.cc:226-257 | after the start callback both buffers hold an empty train of the configured size and buffer 0 receives |
| SlsReceivers.WriteSlot | src/slsReceiver/SlsReceiver.cc:362-373 | writing a frame to a slot keeps the buffer's sizes |
| SlsReceivers.Accumulated | src/slsReceiver/SlsReceiver.cc:355-377 | accepting a packet keeps the buffer's sizes |
| SlsReceivers.AfterFlush | src/slsReceiver/SlsReceiver.cc:313-342 | the flush decision keeps both buffers ready |
| SlsReceivers.Taken | src/slsReceiver/SlsReceiver.cc:344-407 | the packet checks, unpacking and rate bookkeeping keep both buffers ready |
| SlsReceivers.RawData | src/slsReceiver/SlsReceiver.cc:291-413 | the data callback keeps both buffers ready for any packet |
| SlsReceivers.TakenKeeps | src/slsReceiver/SlsReceiver.cc:344-407 | handling a packet after the flush decision changes neither the state, nor which buffer receives, nor the other buffer, nor what was sent |
| SlsReceivers.FlushRule | src/slsReceiver/SlsReceiver.cc:324-342 | the receiving buffer is sent, as it was, exactly when the flush is due; it is then cleared and the other buffer receives; otherwise nothing is sent |
| SlsReceivers.FlushWhenFull | src/slsReceiver/SlsReceiver.cc:324-329 | without train ids and outside burst mode a buffer is written out iff it holds a whole train |
| SlsReceivers.FlushOnNewTrain | src/slsReceiver/SlsReceiver.cc:415-424 | with train ids, outside burst mode, a buffer is written out iff a later train begins and it holds frames |
| SlsReceivers.FlushInBurstMode | src/slsReceiver/JungfrauReceiver.cc:83-102 | in burst mode a buffer is written out iff the frame's storage cell is the start cell and it holds frames |
| SlsReceivers.TrainIdRule | src/slsReceiver/SlsReceiver.cc:302-309 | the Current device takes the firmware bunch id unless it is 0 or all ones, else the clock's train id; the Legacy one always the clock's |
| SlsReceivers.MalformedPacketSkipped | src/slsReceiver/SlsReceiver.cc:344-352 | an empty or misaligned packet stores and counts nothing and costs one warning |
| SlsReceivers.FullBufferDrops | src/slsReceiver/SlsReceiver.cc:355-360 | a packet for a full buffer changes nothing after the flush decision |
| SlsReceivers.AccumulatedSlot | src/slsReceiver/SlsReceiver.cc:362-377 | an accepted packet writes the slot its buffer's count named: frame number, time, bunch id, memory cell and that slot's pixels (from the last frame) change, nothing else, and the count grows by n modulo 2^16 |
| SlsReceivers.AcceptedPacket | src/slsReceiver/SlsReceiver.cc:355-381 | an accepted packet is accumulated into the receiving buffer, logs nothing and is counted or restarts the count |
| SlsReceivers.FirstPacketAfterStart | src/slsReceiver/SlsReceiver.cc:226-257 | the first packet after a start is never preceded by a flush, and an accepted one fills frame 0 of buffer 0 |
| SlsReceivers.CountedRule | src/slsReceiver/SlsReceiver.cc:381-406 | the frame count grows by the packet's frames or restarts only after a second with a higher frame number; the last frame number never goes down |
| SlsReceivers.SlsReceiver.constructor | src/slsReceiver/SlsReceiver.cc:143-155 | no receiver, counters at 0, empty buffers, buffer 0 receiving |
| SlsReceivers.SlsReceiver.Initialize | src/slsReceiver/SlsReceiver.cc:166-223 | the receiver gets the "sls" argv, the port is the last "--rx_tcpport" or 1954, and the state is PASSIVE or ERROR |
| SlsReceivers.SlsReceiver.StartAcquisition | src/slsReceiver/SlsReceiver.cc:226-257 | the device becomes `Started` of what it was |
| SlsReceivers.SlsReceiver.AcquisitionFinished | src/slsReceiver/SlsReceiver.cc:260-289 | only the state changes, to PASSIVE |
| SlsReceivers.SlsReceiver.LogWarning | src/slsReceiver/SlsReceiver.cc:426-434 | the device logs as the warning limiter says |
| SlsReceivers.SlsReceiver.Flush | src/slsReceiver/SlsReceiver.cc:333-342 | the receiving buffer is sent and reset, the other receives with the new train stamp |
| SlsReceivers.SlsReceiver.Accumulate | src/slsReceiver/SlsReceiver.cc:362-377 | the receiving buffer becomes `Accumulated` of the packet |
| SlsReceivers.SlsReceiver.FlushIfDue | src/slsReceiver/SlsReceiver.cc:313-342 | the device becomes `AfterFlush` of what it was |
| SlsReceivers.SlsReceiver.Count | src/slsReceiver/SlsReceiver.cc:381-406 | the rate counters change as `Counted` says |
| SlsReceivers.SlsReceiver.Take | src/slsReceiver/SlsReceiver.cc:344-407 | the device becomes `Taken` of the packet |
| SlsReceivers.SlsReceiver.RawDataReady | src/slsReceiver/SlsReceiver.cc:291-413 | the device becomes `RawData` of the packet and stays ready |
| SlsReceivers.Prepare | src/slsReceiver/SlsReceiver.cc:240-247 | resize then reset leaves an empty train of the given size that keeps its train stamp |
| SlsReceivers.StoreFrame | src/slsReceiver/SlsReceiver.cc:365-373 | one frame is written to the slot and counted |
| SlsReceivers.AccumulateInto | src/slsReceiver/SlsReceiver.cc:362-377 | the frame loop leaves the buffer `Accumulated` of the packet, in the same arrays |
| SlsReceivers.Argv | src/slsReceiver/SlsReceiver.cc:170-186 | the argv has "ignored" and then two entries per "sls" parameter |
| SlsReceivers.ReceiverArgv | src/slsReceiver/SlsReceiver.cc:166-186 | the loop builds `Argv` and finds the last "--rx_tcpport" value, 1954 without one |
| SlsReceivers.ArgvPort | src/slsReceiver/SlsReceiver.cc:166-193 | the simulated receiver's argv scan reads the device's argv to its end and listens on the port the device reports |
| ControlConfig.PerModule | src/slsControl/SlsControl.cc:940-944 | one command per value, command i for module i |
| ControlConfig.SizeCheckRule | src/slsControl/SlsControl.cc:823-844 | the checks pass iff every vector has one entry per module; otherwise the message names the first vector that does not |
| ControlConfig.Printed | src/slsControl/SlsControl.cc:857-858 | one printed port per port |
| ControlConfig.ModuleBlock | src/slsControl/SlsControl.cc:855-862 | one line per parameter for a module |
| ControlConfig.ModuleBlocks | src/slsControl/SlsControl.cc:855-862 | one line per parameter and module |
| ControlConfig.ModuleBlocksAt | src/slsControl/SlsControl.cc:855-862 | line i * k + j of the blocks is parameter j of module i |
| ControlConfig.BaseLines | src/slsControl/SlsControl.cc:849-862 | the host line and then one line per parameter and module |
| ControlConfig.BaseLinesAt | src/slsControl/SlsControl.cc:849-862 | the file starts with the hosts each followed by '+'; line 1 + i * k + j sets parameter j of module i, so every module gets every parameter in the given order |
| ControlConfig.ExposureTimerRange | src/slsControl/JungfrauControl.cc:243-247 | for timeouts of 25 to 1000000 ns the timer is the number of whole 25 ns steps less one, below 40000; below 25 ns it wraps to 0xFFFF |
| ControlConfig.AsicControlBits | src/slsControl/JungfrauControl.cc:254-255 | the new register keeps its low 16 bits, holds the timer above them and fits 32 bits; a second rewrite forgets the first |
| ControlConfig.TimerWrites | src/slsControl/JungfrauControl.cc:249-258 | one write per read-back register |
| ControlConfig.TimerWritesRule | src/slsControl/JungfrauControl.cc:249-258 | write i goes to register 0x7F of module i alone, keeps that module's low 16 bits and puts the timer above |
| ControlConfig.WriteTimer | src/slsControl/JungfrauControl.cc:242-260 | the loop makes exactly `TimerWrites` of the read-back values |
| SlsControls.IssuedAllAppend | src/slsControl/SlsControl.cc:1017-1051 | the calls of two command runs are those of the first followed by those of the second |
| SlsControls.IssuedAllOffline | src/slsControl/SlsControl.cc:1020-1025 | nothing reaches the detector while the device is UNKNOWN or ERROR |
| SlsControls.IssuedAllRule | src/slsControl/SlsControl.cc:1017-1051 | offline nothing is sent; online every named command is one `loadParameters` with its line, in order |
| SlsControls.CommandLineWords | src/slsControl/SlsControl.cc:1037-1045 | the simulated detector reads the line as the command word with its module prefix and then the parameter words, and its prefix split gives back the position and the command |
| SlsControls.SentLineReachesModule | src/slsControl/SlsControl.cc:1037-1047 | loading the line on the simulated detector puts the command to the module the position names (all modules for -1) with the parameters as value |
| SlsControls.HashCommandsSnoc | src/slsControl/SlsControl.cc:909-956 | the commands of one more key follow those of the keys before it |
| SlsControls.EntryCommandsRule | src/slsControl/SlsControl.cc:909-956 | read-only keys and values neither simple nor vector send nothing; a simple value goes once to all modules; a vector is skipped when empty, goes once to all with one value, to module i with value i with one value per module, and is skipped otherwise |
| SlsControls.VectorReachesModules | src/slsControl/SlsControl.cc:940-944 | with one value per module, line i of a vector key puts value i to module i of the simulated detector |
| SlsControls.BaseCheckRule | src/slsControl/SlsControl.cc:823-844 | the base configuration's size checks pass iff every vector has one entry per module |
| SlsControls.BaseFileOrder | src/slsControl/SlsControl.cc:847-862 | base.config names the hosts each followed by '+' on its first line, then for each module five lines: udp_dstport, rx_tcpport, udp_srcip, udp_dstip, rx_hostname |
| SlsControls.ShmIdRange | src/slsControl/SlsControl.cc:556-558 | the shared-memory id is the low 31 bits of the hash: a non-negative 32-bit int, unchanged for a hash that fits |
| SlsControls.CheckHighVoltage | src/slsControl/SlsControl.cc:1058-1071 | the high voltages are kept iff none is above the incoming maximum, or the current one when none comes |
| SlsControls.AcquisitionTimeCheck | src/slsControl/SlsControl.cc:1086-1158 | setting acquisitionTime fails, with the source's message, iff the timing in effect is neither "trigger" nor "auto" |
| SlsControls.AnyAcquiring | src/slsControl/SlsControl.cc:688-695 | the loop finds a module that is not idle, stopped or in error iff there is one |
| SlsControls.StatusStepRule | src/slsControl/SlsControl.cc:697-706 | the state changes only from ACQUIRING to ON, and only when every module is idle and continuous mode is off; with it on the detector is restarted instead |
| SlsControls.SlsControl.constructor | src/slsControl/SlsControl.cc:24-40 | UNKNOWN, no modules, not configured, no calls |
| SlsControls.SlsControl.Initialize | src/slsControl/SlsControl.cc:543-575 | one module per host, positions 0..n-1 (none, positions kept, when the hosts cannot be read), the shared-memory id from the directory hash, connecting only once the detector object exists |
| SlsControls.SlsControl.SendCommand | src/slsControl/SlsControl.cc:1017-1051 | the calls grow by `Issued` of the command and nothing else changes |
| SlsControls.SlsControl.SendCommands | src/slsControl/SlsControl.cc:1017-1051 | the calls grow by `IssuedAll` of the commands |
| SlsControls.SlsControl.SendHash | src/slsControl/SlsControl.cc:892-956 | the calls grow by the commands of every key, nothing while offline |
| SlsControls.SlsControl.SendEntries | src/slsControl/SlsControl.cc:906-956 | the loop over the keys issues the commands of each in order |
| SlsControls.SlsControl.SendEntry | src/slsControl/SlsControl.cc:908-955 | the calls grow by the commands of the key |
| SlsControls.SlsControl.SendPerModule | src/slsControl/SlsControl.cc:940-944 | value i is sent to module i, in order |
| SlsControls.SlsControl.SendBaseConfiguration | src/slsControl/SlsControl.cc:813-873 | the result is the size check; on success the base file is loaded, the specialisation powered on and the device configured; a failed check changes nothing |
| SlsControls.SlsControl.PowerOn | src/slsControl/JungfrauControl.cc:210-213 | the calls grow by the power-on calls of the specialisation |
| SlsControls.SlsControl.SendInitialConfiguration | src/slsControl/SlsControl.cc:875-890 | settingspath, then fformat binary, then the configuration's commands; the status says so |
| SlsControls.SlsControl.Start | src/slsControl/SlsControl.cc:506-511 | ACQUIRING, continuous mode latched, receiver then detector started |
| SlsControls.SlsControl.Stop | src/slsControl/SlsControl.cc:513-523 | continuous mode dropped, detector then receiver stopped, state unchanged |
| SlsControls.SlsControl.PollStatus | src/slsControl/SlsControl.cc:673-746 | a failure before the status is known stops the receiver, makes the device UNKNOWN and unconfigured and reconnects; otherwise the status step, then ERROR if the receivers fail |
| SlsControls.SlsControl.ConfigureJungfrau | src/slsControl/JungfrauControl.cc:242-260 | with a timeout the timer is published and register 0x7F of every module rewritten; without one nothing happens |
| SlsControls.SlsControl.PollTemperature | src/slsControl/JungfrauControl.cc:216-239 | the event is set iff some module reports one; it disables the device once |
| SlsControls.SlsControl.ResetTempEvent | src/slsControl/JungfrauControl.cc:203-208 | the event is cleared on every module and the device is ON |
| SlsControls.SlsControl.ConfigureGotthard2 | src/slsControl/Gotthard2Control.cc:197-263 | the calls grow by the single-photon, rate and read-out commands, each when its key is present |
| SlsControls.SlsControl.SendGroups | src/slsControl/Gotthard2Control.cc:197-263 | the fixed commands, then the read-out group |
| SlsControls.SlsControl.SendReadOut | src/slsControl/Gotthard2Control.cc:244-262 | the loop sends the read-out command of modules 1..n-1 in order |
| SlsControls.SlsControl.PowerOffGotthard2 | src/slsControl/Gotthard2Control.cc:191-195 | high voltage off on all modules iff a detector with modules exists |
| SlsControls.ReadOutCommands | src/slsControl/Gotthard2Control.cc:244-262 | one command per module but the first |
| SlsControls.ReadOutLine | src/slsControl/Gotthard2Control.cc:250-260 | the read-out line is the bit command sent to module i, and the simulated detector reads its first word as module i and the command |
| SlsControls.AddressedLine | src/slsControl/Gotthard2Control.cc:250-260 | a command word written after a module prefix is the same line as the command sent to that module |
| SlsControls.ReadOutBitWords | src/slsControl/Gotthard2Control.cc:253-259 | the parameters are the two words "0x20" and "20" |
| SlsControls.ReadOutCommandsAddress | src/slsControl/Gotthard2Control.cc:244-262 | command k addresses module k + 1, so the master module 0 is never touched |
| SlsControls.Gotthard2Groups | src/slsControl/Gotthard2Control.cc:197-263 | each group only with its key, in the order single photon, rate, read-out; 2, 7 or 4 and n - 1 commands; another rate restores the 108 read-out speed |
| LegacySlsControls.SentAllAppend | slsControl/src/SlsControl.cc:1123-1160 | the calls of two command runs are those of the first followed by those of the second |
| LegacySlsControls.SentAllNotOn | slsControl/src/SlsControl.cc:1127-1130 | nothing reaches the detector unless the device is ON |
| LegacySlsControls.SentAllOn | slsControl/src/SlsControl.cc:1123-1160 | while ON every named command is one `putCommand` with its arguments and position, in order |
| LegacySlsControls.ArgumentsRule | slsControl/src/SlsControl.cc:1143-1150 | the command comes first; the parameters split at every comma and space into one token more than there are separators, none holding one; parameters without either are one argument |
| LegacySlsControls.ListArguments | slsControl/src/SlsControl.cc:1143-1150 | values joined with commas arrive as one argument each |
| LegacySlsControls.SentValueReachesDetector | slsControl/src/SlsControl.cc:1143-1152 | a plain command word with a single value reaches the simulated `slsDetectorUsers` as that parameter with that value |
| LegacySlsControls.OtherControllerIgnored | slsControl/src/SlsControl.cc:860-862 | a command word with a controller prefix other than "0", as in "extsig:1", is answered with nothing and changes nothing on the simulated `slsDetectorUsers` |
| LegacySlsControls.Broadcast | slsControl/src/SlsControl.cc:940-944 | one command per module |
| LegacySlsControls.HashCommandsSnoc | slsControl/src/SlsControl.cc:905-966 | the commands of one more key follow those of the keys before it |
| LegacySlsControls.EntryCommandsRule | slsControl/src/SlsControl.cc:905-966 | a vector with one value goes to every module by position, one with a value per module sends value i to module i, other lengths, read-only keys and other values send nothing, a simple value goes once to all |
| LegacySlsControls.BaseCheckRule | slsControl/src/SlsControl.cc:805-817 | the size checks pass iff every vector has one entry per module |
| LegacySlsControls.BaseFileOrder | slsControl/src/SlsControl.cc:820-836 | the hosts each followed by '+' on the first line, then per module rx_udpport, rx_tcpport, detectorip, rx_udpip, rx_hostname |
| LegacySlsControls.BaseOutcome | slsControl/src/SlsControl.cc:794-846 | the detector is powered on iff the checks pass and the file reads with code 0; a failed check reads no file; a failed read is an error with its code |
| LegacySlsControls.InitialCommandsShape | slsControl/src/SlsControl.cc:848-904 | 28 fixed commands to every module, the directories first and the file format last |
| LegacySlsControls.DetectorPorts | slsControl/src/SlsControl.cc:999-1010 | one port per host |
| LegacySlsControls.DetectorPortsRule | slsControl/src/SlsControl.cc:999-1010 | host i is checked on its configured port if it has one and on 1952 otherwise |
| LegacySlsControls.AllQueriesAppend | slsControl/src/SlsControl.cc:752-771 | the queries of two key runs are those of the first followed by those of the second |
| LegacySlsControls.PathQueriesRule | slsControl/src/SlsControl.cc:752-771 | a known key is asked of module 0 once when simple and of each module in turn when a vector; an unknown one is not asked |
| LegacySlsControls.LegacySlsControl.constructor | slsControl/src/SlsControl.cc:22-30 | INIT, not connecting, first poll ahead, not polling, no calls |
| LegacySlsControls.LegacySlsControl.Initialize | slsControl/src/SlsControl.cc:629-644 | one module per host, none when the hosts cannot be read; connecting starts |
| LegacySlsControls.LegacySlsControl.SendCommand | slsControl/src/SlsControl.cc:1123-1160 | the calls grow by `Sent` of the command and nothing else changes |
| LegacySlsControls.LegacySlsControl.SendCommands | slsControl/src/SlsControl.cc:1123-1160 | the calls grow by `SentAll` of the commands |
| LegacySlsControls.LegacySlsControl.SendHash | slsControl/src/SlsControl.cc:905-966 | nothing unless ON, otherwise the commands of every key in order |
| LegacySlsControls.LegacySlsControl.SendEntries | slsControl/src/SlsControl.cc:915-963 | the loop over the keys sends the commands of each in order |
| LegacySlsControls.LegacySlsControl.SendEntry | slsControl/src/SlsControl.cc:917-962 | the calls grow by the commands of the key |
| LegacySlsControls.LegacySlsControl.PowerOn | slsControl/src/JungfrauControl.cc:132-135 | the calls grow by the power-on calls of the specialisation |
| LegacySlsControls.LegacySlsControl.SendBaseConfiguration | slsControl/src/SlsControl.cc:794-846 | the result is `BaseResult` and the calls grow by `BaseCalls` |
| LegacySlsControls.LegacySlsControl.SendInitialConfiguration | slsControl/src/SlsControl.cc:848-904 | the fixed commands, then the configuration |
| LegacySlsControls.LegacySlsControl.SendFixedThenHash | slsControl/src/SlsControl.cc:848-904 | the given commands, then the configuration's |
| LegacySlsControls.LegacySlsControl.ConfigureOnline | slsControl/src/SlsControl.cc:662-672 | ON, base configuration, initial configuration; ERROR when the base configuration fails |
| LegacySlsControls.LegacySlsControl.Connect | slsControl/src/SlsControl.cc:646-685 | detectors and receivers online: configure; receivers offline: ERROR; either way polling starts; detectors offline: UNKNOWN and another attempt while connecting |
| LegacySlsControls.LegacySlsControl.Reset | slsControl/src/SlsControl.cc:613-627 | configure again when the receivers are online, otherwise nothing |
| LegacySlsControls.LegacySlsControl.Stop | slsControl/src/SlsControl.cc:606-611 | the measurement stopped and the device ON |
| LegacySlsControls.LegacySlsControl.PollHardware | slsControl/src/SlsControl.cc:715-782 | detectors offline: UNKNOWN and reconnect, nothing asked; receivers offline: ERROR; then the "poll" keys are asked, with the "readOnConnect" keys after them on the first poll only |
| LegacySlsControls.LegacySlsControl.QueryPaths | slsControl/src/SlsControl.cc:752-771 | the queries of every key in order |
| LegacySlsControls.LegacySlsControl.QueryPath | slsControl/src/SlsControl.cc:752-771 | the queries of one key |
| LegacySlsControls.LegacySlsControl.ConfigureJungfrau | slsControl/src/JungfrauControl.cc:147-165 | with a timeout the timer is published and register 0x7F of every module rewritten; without one nothing happens |
| LegacySlsControls.LegacySlsControl.PowerOff | slsControl/src/JungfrauControl.cc:30-35 | chips off on all modules when a detector object exists, except for Gotthard |
| LegacySlsControls.OnlineCallsRule | slsControl/src/SlsControl.cc:613-685 | a successful configuration reads the base file, powers on, then sends the 28 fixed parameters before the configuration's own; a failed one sends no parameter |

## Left out

- Floating-point parameters and their text are not modelled.  This covers the exposure
  time, period and delay, rate correction, the fine offset, the angular parameters and
  the fixed-point formatting of float keys in `sendConfiguration`.
- `DetectorCommands.Get` (through `DetectorCommands.Query`) and
  `SimDetector.Detector.GetCommand` answer exptime, period and delay with an error
  outcome, `Err(FLOAT_REPLY)`, not with a text.  The source answers each with the
  `std::to_string` of the value in seconds
  (`slsDetectorsSimulation/src/Detector.cc:860-868`).
- `UsersCommands.Get` (through `UsersCommands.Query`) and
  `SimDetectorUsers.DetectorUsers.GetCommand` answer exptime, period, delay, ratecorr,
  fineoff, positions, globaloff, binsize and angdir with the same error outcome.  The
  source answers the first eight with `std::to_string` of the stored value
  (`slsDetectorsSimulation/src/slsDetectorUsers.cc:785-790`, `:811-814`, `:899-906`).
  For positions it answers the decimal count and then, for each stored position, a single
  character: `' ' + *it` adds the space's code 32 to the `double` position, and
  `reply += …` converts that sum to `char` by truncation, undefined when it does not fit
  in a `char`.  There is no separator and no number text for the positions
  (`slsDetectorUsers.cc:815-819`).
- `DetectorCommands.PutParameter` (and so `DetectorCommands.Put` and
  `SimDetector.Detector.PutCommand`) keeps the state and answers the value for exptime,
  period and delay.  The source converts the value with `std::stof`, which throws on text
  that is not a number (`slsDetectorsSimulation/src/Detector.cc:731-742`); that exception
  is not modelled.
- `SimReceiver.Command` (and so `SimReceiver.Receiver.ProcessCommand`) ignores a
  two-word exptime, delay or period command.  The source stores `std::stof` of the value,
  which throws out of `processCommand` on text that is not a number
  (`slsDetectorsSimulation/src/Receiver.cc:328-343`), as `std::stoi` does for the integer
  commands, which the model answers with `Err`.  Neither the stored float nor that
  exception is modelled.
- `UsersCommands.PutParameter` keeps the state and answers the value for the
  floating-point words exptime, period, delay, ratecorr, fineoff, positions, globaloff,
  binsize and angdir.  It does not model the `std::stod` exception on text that is not a
  number (`slsDetectorsSimulation/src/slsDetectorUsers.cc:609-614`, `:636-650`,
  `:711-721`), nor the `std::stoi` of the position count.  It does not model that a
  negative "ratecorr" also turns count-rate correction off
  (`slsDetectorsSimulation/src/slsDetectorUsers.cc:636-640`).
- `DetectorCommands.Get` and `SimDetector.Detector.GetCommand` answer firmwareversion,
  serialnumber, detectorserverversion, temp_adc and temp_fpga for the queried module.
  As written, `slsDetectorsSimulation/src/Detector.cc:877-885` and `:936-941` index the
  empty vector those getters return for the default position list; see Findings.  The
  same holds for rx_version at a module other than 0, whose getter returns one value.
- `SimDetector.DumpThenRetrieve` claims the hosts and the five per-module vectors only.  An
  external signal reads back only its first word.  The other detector-wide values are not
  claimed: a text reads back with every white-space character made a space and its
  trailing white space dropped.  `PortsFit` asks only that std::stoi read each printed
  port, so that reading it back throws nothing.
- `SimDetector.Detector.RetrieveDetectorSetup` takes the file's text as a parameter.  A
  line longer than `MAX_LEN` stops `getline` (its failbit); that is not modelled.
- The `acquisitionTime` arithmetic of `preReconfigure` (trigger count, exposure time and
  period) is floating point.  Only its timing-mode check is modelled.
- `SimReceiver.FrameStep` (and `SimReceiver.Receiver.DataStep`, which follows it) gives a
  defined next state in two cases where the source's behaviour is undefined.  First, the
  data thread calls the data callback with no NULL check
  (`slsDetectorsSimulation/src/Receiver.cc:207`); a turn without a registered data
  callback calls through NULL, while the model ignores `callbacks.rawData`.  Second, the
  rollover `fclose` and the `fwrite` (`Receiver.cc:212-221`) use `m_filePointer`, which
  starts as NULL (`Receiver.cc:108`) and is opened only by a "start" that found a start
  callback with file writing on (`Receiver.cc:277-287`).  Without a start callback, or
  after "fwrite 1" during an acquisition, these calls get NULL; the model counts the frame
  and records a rollover file as in the defined case.
- `SimReceiver.Stop` records the file as closed whenever a finish callback is registered
  and file writing is on (`slsDetectorsSimulation/src/Receiver.cc:313-316`).  When no file
  was opened at "start" (no start callback, or writing switched on later), the source
  calls `fclose` on NULL instead; that case is not modelled apart from the defined one.
- `SimReceiverUsers.UsersStop` records the file as closed whenever a finish callback is
  registered and file writing is on
  (`slsDetectorsSimulation/src/slsReceiverUsers.cc:166-171`).  `m_filePointer` starts as
  NULL (`slsReceiverUsers.cc:23`) and is opened only at a "start" with a start callback
  and writing on (`slsReceiverUsers.cc:150-152`); otherwise the source calls `fclose` on
  NULL, which the model does not distinguish.
- `SimReceiverUsers.UsersRawData` counts the frame and records a rollover file whenever a
  data callback is registered and file writing is on
  (`slsDetectorsSimulation/src/slsReceiverUsers.cc:227-239`).  When no file was opened at
  "start" (no start callback, or "enablefwrite 1" during an acquisition), the source calls
  `fclose` and `fwrite` on a NULL `FILE*`; the model gives the defined outcome instead.
- `SlsControls.SlsControl.SendCommand` assumes every `loadParameters` call succeeds; so do
  `SlsControls.SlsControl.SendCommands`, `SendHash`, `SendEntries`, `SendEntry`,
  `SendPerModule` and `SendInitialConfiguration`, which append their whole run of calls and
  then set the status.  In the source the detector's `putCommand` can throw (`std::stoi`,
  `std::stof` and "position not found"), `sendConfiguration` lets that escape
  (`src/slsControl/SlsControl.cc:1017-1046`), and `sendInitialConfiguration` then stops
  before the remaining calls and before "Configuration done"
  (`src/slsControl/SlsControl.cc:875-887`).  A throwing detector call is not modelled.
- `LegacySlsControls.LegacySlsControl.SendCommand` assumes every `putCommand` call
  succeeds; so do `LegacySlsControls.LegacySlsControl.SendCommands`, `SendHash`,
  `SendEntries`, `SendEntry`, `SendInitialConfiguration`, `SendFixedThenHash`,
  `ConfigureOnline` and `Connect`.  In the source a throwing `putCommand` is rethrown
  (`slsControl/src/SlsControl.cc:1150-1156`); neither the per-key catch of
  `karabo::util::Exception` (line 959) nor the one in `connect` (line 669) catches a
  `std::exception`, so the run stops there.  A throwing detector call is not modelled.
- `DetectorModel.StartMeasurement` and `SimDetector.Detector.StartMeasurementNoWait` give
  a defined RUNNING state with the frame countdown set even with zero modules (a new
  detector, or after "free" or `freeSharedMemory`).  The source's `startMeasurementNoWait`
  first calls `configureReceiver`, which reads `m_filePath[0]`, `m_fileName[0]` and
  `m_fileIndex[0]` without checking that the vectors are non-empty; only `m_settings` is
  checked (`slsDetectorsSimulation/src/Detector.cc:947-962`, `:995-1001`).  With zero
  modules that read is undefined behaviour.  The same holds for "status start" in
  `DetectorCommands.PutParameter` (`Detector.cc:749-751`) and for "acquire" in
  `DetectorCommands.Get` (`Detector.cc:892-893`), which `DetectorCommands.GetOnlyAcquires`
  describes.  The model
  does not single out this case; the messages `configureReceiver` sends over TCP are left
  out with the rest of the networking.
- `UsersModel.StopMeasurement` and `SimDetectorUsers.DetectorUsers.StopMeasurement` give
  the intended outcome: status idle and the next file index.  As written,
  `int slsDetectorUsers::stopMeasurement()` reaches the end of its body with no `return`
  statement (`slsDetectorsSimulation/src/slsDetectorUsers.cc:127-131`).  In C++ that is
  undefined behaviour on every call, and the function is reached through "status stop"
  and through the data worker when the frame countdown runs out
  (`slsDetectorUsers.cc:655`, `:983`).  The model gives no result value and does not
  model the missing return.
- `SimReceiver.Initial` starts file writing off and the acquisition counters at 0.  The
  `Receiver` constructor leaves `m_enableWriteToFile`, `m_currAcqFrameCounter` and
  `m_currFileFirstFrame` uninitialised (`slsDetectorsSimulation/src/Receiver.cc:96-116`),
  so their first values are indeterminate in the source.
- `SimReceiverUsers.UsersInitial` starts the file index and the setting at 0, file writing
  off and the acquisition counters at 0.  The `slsReceiverUsers` constructor leaves
  `m_fileIndex`, `m_enableWriteToFile`, `m_settings`, `m_currAcqFrameCounter` and
  `m_currFileFirstFrame` uninitialised (`slsDetectorsSimulation/src/slsReceiverUsers.cc:16-30`),
  so their first values are indeterminate in the source.
- `SimReceiverUsers.Read` takes each `read_some` chunk as a given text.  The source reads
  at most `MAX_LEN` (256) bytes per call into a buffer it then splits as a C string
  (`slsDetectorsSimulation/src/slsReceiverUsers.cc:109-127`).  A command split across two
  chunks is handled as two pieces only when the chunks are given that way.  A chunk of a
  full 256 bytes has no terminating NUL, so the split reads past the buffer; that is not
  modelled.
- File I/O is not modelled.  The base configuration file is kept as its text.  The raw
  files are kept as names and frame counts.  Settings and calibration file creation are
  left out.  The legacy `putCommand` "config" and "parameters" file reading is left out.
- Networking is not modelled: the TCP servers, sockets, ping and `system()`.  A received
  session is a list of commands.
- Timers, threads and the strand are not modelled.  Callbacks run one after the other.
  The semaphores of `DetectorData` and the write-out to output channels are replaced by
  appending the flushed buffer to `sent`.
- `rand()` is modelled as a function parameter giving the draws.
- Timestamps are kept as whole numbers.  Whether a second went by since the last rate
  update is a parameter.  The published frame rates are left out.
- `DetectorData.Resize` gives fresh arrays filled with 0.  In C++, `new` leaves them
  indeterminate; `reset()` always follows, so nothing depends on it.
- The `Receiver(int)` constructor in `slsDetectorsSimulation/src/Receiver.cc` builds a
  temporary Receiver instead of initialising itself.  Only the argv it builds is modelled.
- Overflow of the C++ `int` frame counters is not modelled (unbounded integers).  Where
  the source stores into an unsigned short (`accumulatedFrames`, the exposure timer), the
  wrap-around is written out.
- The Jungfrau memory-cell and register bit operations are stated arithmetically.  They
  use quotient and remainder, not bit vectors.
- Exceptions thrown while reading a single parameter in `initialize` and
  `sendConfiguration` are not modelled.  A key whose alias cannot be found is a `Path`
  whose alias is `None`.
- The current `connect`, `reset`, `pollHardware` and `preDestruction` are not modelled.
  They chain ping, the base configuration and the initial configuration through timers.
  Their parts `SendBaseConfiguration`, `SendInitialConfiguration`, `PollStatus` and the
  specialisations are modelled.
- The legacy `start`, `acquireBlocking` and `pollDetectorSpecific` temperature reads are
  not modelled.  They run blocking acquisitions and hardware reads.
- `LegacySlsControls.LegacySlsControl.Connect` takes whether the detectors and receivers
  are online as parameters.  The legacy `areReceiversOnline` indexes its port list by
  module and is not modelled.
- Restarting the poll timer with a changed `pollingInterval` is not modelled.
- Reconfiguring `framesPerTrain` is not modelled.  `updateOutputSchema` only changes the
  output schema.
- The legacy control's `m_positions` is used but not declared in the legacy class, so
  positions are a parameter of `PowerOn`, `SendBaseConfiguration` and `PowerOff`.
- `SlsControls.SlsControl.PowerOffGotthard2` models the body of `Gotthard2Control::powerOff`
  at `src/slsControl/Gotthard2Control.cc:191-195`.  The class declaration in
  `src/slsControl/Gotthard2Control.hh:33-39` declares `powerOn`, `pollDetectorSpecific`,
  `configureDetectorSpecific` and `createCalibrationAndSettings`, but no `powerOff`, and
  `src/slsControl/SlsControl.hh` declares no `powerOff` either, although
  `src/slsControl/SlsControl.cc:1188` calls it.  The model takes the body as the
  specialisation's power-off.
- The current SlsControl starts in UNKNOWN, the schema default.  Its `updateState` calls
  are modelled as assignments to `state`.
- `SlsControls.SlsControl.PollStatus` takes the receivers' ping and status as one
  `receiverFailure` parameter.
- `ControlConfig.ExposureTimer` models `std::lround(exposureTimeout/25) - 1`.  That is
  integer division, then the unsigned short wrap-around; floating rounding plays no part.

## Findings

| source | as written | input that shows it | evidently intended | confidence | as-written member | corrected member |
|---|---|---|---|---|---|---|
| slsDetectorsSimulation/src/Receiver.cc:247-256 | `replace_extension("raw")` on the joined path treats everything after the last '.' of the prefix as an extension | prefix "run.v1" in "/tmp": every file is "/tmp/run.raw", so a rollover overwrites the first file | append ".raw" to the full stem, so names differ per first frame and index | not executed | RawFiles.FileNameAsWrittenCollides | RawFiles.FileNameInjective |
| slsDetectorsSimulation/src/Detector.cc:877-891 | the version and serial-number getters are called with the default, empty, position list and the result is indexed at `pos` | "firmwareversion" for module 0: index 0 of an empty vector | ask each getter for the queried module | not executed | DetectorCommands.VersionQueryAsWrittenIndexesEmpty | DetectorCommands.VersionQueryAnswersVersions |
| slsDetectorsSimulation/src/slsDetectorUsers.cc:259-270 | `setDetectorSize` tests the stored `m_nx`/`m_ny` instead of the arguments `nx`/`ny` | `setDetectorSize(-1, -1, -1, -1)` stores -1 x -1, after which no call changes the size | every coordinate follows the "negative means query" rule of the other setters | not executed | UsersModel.SetDetectorSizeAsWrittenLocks | UsersModel.SetDetectorSizeQueries |
