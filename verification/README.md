# OreSat C3: a verified model

This project models the parts of the OreSat C3 flight software that carry an obligation one can state without the
hardware, and proves those obligations in Dafny. Check it with `dafny verify dfyconfig.toml`.

| files | what they model |
|---|---|
| `EdlCommand`, `TransferFrame`, `Sdls`, `Uslp`, `EdlPacket` | the engineering data link: command codec, USLP frames with their computed length, masked-header authentication, and packets over all three |
| `Algebra`, `Divisors`, `Si41xxDividers`, `Si41xx` | the synthesizer driver: exact dividers, and a bit-banged transmitter against a receiver |
| `Overpass` | the search for the next overpass, three scans inside an outer loop |
| `Products`, `Matrices`, `Quaternions`, `Innovation`, `Mekf`, `MekfTrig`, `MekfFilter`, `MekfDefinite`, `MekfDynamics`, `MekfSteering` | quaternion algebra and the multiplicative extended Kalman filter: its covariance, and which way it moves |
| `FileContents`, `Checksums`, `CacheStore`, `CfdpDest` | file delivery: contents, checksums, the file index, and the destination's retries |
| `Fram`, `PersistentState`, `C3State` | state kept in F-RAM, and the state machine that deploys the antennas |
| `Max7310`, `Opd`, `OpdPins`, `OpdNodes`, `NodeManager`, `NodeManagerStates`, `NodeManagerRuns`, `NodeManagerService` | the power domain's GPIO expanders and cards, and the supervisor that resets them: specifications, and the objects that refine them |
| `Octets` | octet strings, fixed-width integers and Python's slices |

Code that computes a value is modelled by functions, and what is promised of it by lemmas. Code that changes
something is modelled by methods over fields, arrays and loops; each is proved to do what a specification function
says, and the lemmas are about that function. Runs are sequences of events folded over the specification.

## What the proofs turned up

- Frames shorter than 7 octets fail on an index, not with the too-short error: the octets are read before the length is checked (Uslp.ShortPacketError).
- The code and `docs/edl.rst` disagree on the polarity of the command flag and of the source/destination bit, and on the protocol identifier; the model follows the code.
- A packet never carries the control word it is given, the flag to ignore the authentication code is ignored, and whether a command is decoded as a request depends on its direction alone (EdlPackets.PacketEndToEnd).
- Of a frame header only VCID, MAP id and the length of the frame count are authenticated (Sdls.AuthenticatedExactly).
- `calc_div` is exact whenever it returns, although halving may truncate; but after a halving it gives up on some ratios that could be programmed within every limit, exactly when (Si41xxDividers.UnjustifiedIff). `set_if` shifts by the divider's code, which is its ratio only for DIV1 and DIV2 (Si41xx.SetIfFrequency), and the code of DIV8 overlaps the auxiliary select (Si41xx.ConfigFields).
- The overpass search does not return when it meets, from 0 s and again from 2000 s, a window that is not seen to close: the exit stays at 0 and the search starts over (Overpass.ReturnsIffHalts). After a pass of under five minutes it skips 2000 s, and any longer pass that begins there (Overpass.MissedStays, Overpass.MissedStay).
- The error quaternion is in the upper hemisphere, as documented, only when its arguments share one (Quaternions.ErrorUpperHemisphereIff). A correction rotates by as many degrees as it should radians (MekfTrig.CorrectionRotatesByDegrees, MekfTrig.CorrectionRotatesTooLittle).
- Renaming onto another existing file, or replacing a file by itself, makes the file index disagree with the directory (CacheStores.AgreementKeptIffSafe). The modular checksum ignores how much of the file it is to verify (Checksums.ModularOfPrefixIff). The CRC loop does not end for a negative segment length (CacheStores.CrcLoopReturnsIff).
- With an ignoring or suspending fault handler the destination never gives up waiting (CfdpDest.WaitEndsIff), and on a cancelled transaction it calls itself without end (CfdpDest.CycleReturnsIff).
- Store and restore agree exactly on fixed-size objects (PersistentState.StoreRestoreIff); a clear wipes only the first half of the memory, so objects past it survive (PersistentState.ClearKeepsOnlyKeys).
- A state that names no state is never repaired: logging it raises before the branch that would (C3State.InvalidStateStays). The battery check is the constant true, so no transition depends on the battery.
- Octets after a command that carries nothing are ignored (EdlCommand.UnpacksIff). A card that answers while it is marked missing keeps its power when the cards of the domain are switched off (OpdPins.PowerDownCuts).
- A UART connection outlives its selection exactly when a card is let go of while it does not answer (Opds.ExclusiveKeptIff).
- A dead card can be switched on again by its parent (NodeManagerRuns.DeadNodeSwitchedOn). Resets by the operator are not counted, so only the supervisor's are at most three (NodeManagers.WhoResets, NodeManagers.ResetsBetween). The branch that brings a dead card back by its heartbeats, which tests for their absence, is never reached (NodeManagers.DeadIffUsedUp), and neither are the domain's FAULT and DEAD states (Opds.RunNeverFaults).

## Model

| member | source | states |
|---|---|---|
| EdlCommand.StructRoundTrip | oresat_c3/protocols/edl_command.py:447-450 | unpacking what a fixed format packed gives the same values, in either byte order |
| EdlCommand.HeadAndTailRoundTrip | oresat_c3/protocols/edl_command.py:320-343 | the SDO write and SDO read callbacks come back with their head values and whole buffer |
| EdlCommand.FlashRoundTrip | oresat_c3/protocols/edl_command.py:346-364 | a flash request comes back with the defaults filled in and the trailing NULs of its file name gone |
| EdlCommand.RoundTrip | oresat_c3/protocols/edl_command.py:440-475 | every request and response that packs unpacks to exactly what its receiver should see: `None` read as `()`, spare arguments dropped, flash defaults filled in, NULs stripped |
| EdlCommand.UnchangedIffCanonical | oresat_c3/protocols/edl_command.py:507-542 | a message that packs comes back unchanged if and only if it is canonical: a tuple, no spare arguments, all six flash arguments, no NUL at the end of the name |
| EdlCommand.NullaryCommandDropsArguments | oresat_c3/protocols/edl_command.py:447-452 | every request and response with neither format nor callback packs to its code alone, whatever its arguments, and unpacks with none |
| EdlCommand.SdoWriteOnTheWire | oresat_c3/protocols/edl_command.py:320-322 | the octets of an SDO write request, field by field, whatever the byte order of the host |
| EdlCommand.SdoReadOnTheWire | oresat_c3/protocols/edl_command.py:332-335 | the octets of an SDO read response, field by field |
| EdlCommand.FlashOnTheWire | oresat_c3/protocols/edl_command.py:346-354 | the octets of a flash request: the file name, its second argument, comes last |
| EdlCommand.FlashDefaultsOnTheWire | oresat_c3/protocols/edl_command.py:346-354 | the octets of a flash request of a node and a file alone |
| EdlCommand.FlagOnTheWire | oresat_c3/protocols/edl_command.py:367-400 | the octets of every command with one flag, as a request or a response, and that nothing but a flag packs |
| EdlCommand.OctetOnTheWire | oresat_c3/protocols/edl_command.py:367-400 | the same for every command with one octet |
| EdlCommand.WordOnTheWire | oresat_c3/protocols/edl_command.py:367-400 | the same for every command with one word, in the byte order of the host |
| EdlCommand.OpdEnableOnTheWire | oresat_c3/protocols/edl_command.py:381 | the octets of a request to switch a card |
| EdlCommand.SdoReadRequestOnTheWire | oresat_c3/protocols/edl_command.py:389-390 | the octets of an SDO read request, in the byte order of the host |
| EdlCommand.EveryCommandHasItsLayout | oresat_c3/protocols/edl_command.py:367-400 | which commands carry nothing, and that every other is one of those |
| EdlCommand.FlagOffTheWire | oresat_c3/protocols/edl_command.py:465-475 | any octet but 0 is read as a flag that is set |
| EdlCommand.UnpacksIff | oresat_c3/protocols/edl_command.py:465-475 | exactly which octets unpack, command by command: fixed lengths, least lengths, and anything at all after a code alone |
| EdlCommand.StripNuls | oresat_c3/protocols/edl_command.py:363 | the result is the longest prefix that does not end in a NUL, and only NULs are removed |
| TransferFrames.HeaderRoundTrip | oresat_c3/protocols/uslp.py:145-162 | a primary header that packs, of 7 octets and up to 7 of frame count, unpacks to itself |
| TransferFrames.HeaderOnTheWire | oresat_c3/protocols/uslp.py:145-162 | the octets of a primary header are the fields of section 4.1.2 of CCSDS 732.1-B-2 in their order and widths, most significant bit first |
| TransferFrames.FrameRoundTrip | oresat_c3/protocols/uslp.py:58-80 | a well-formed frame that packs unpacks to itself when read with the insert-zone length it was made with |
| TransferFrames.RepackedIff | oresat_c3/protocols/uslp.py:58-80 | a frame that unpacks is packed again as the octets received, if and only if no spare bit was set in them |
| Uslp.MakeFrame | oresat_c3/protocols/uslp.py:127-169 | the frame it returns, or the error it raises, is the specified one: header fields, computed length, and security applied unless it is a command |
| Uslp.ShortPacketError | oresat_c3/protocols/uslp.py:66-79 | exactly which octet strings raise the too-short error: shorter ones than 7 octets fail on an index before the length is looked at |
| Uslp.SendableIffPacks | oresat_c3/protocols/uslp.py:138-164 | make and pack succeed if and only if VCID, sequence number, key, frame count, control word and total length are in range |
| Uslp.LengthFieldCounts | oresat_c3/protocols/uslp.py:138-150 | the length field on the wire is the total number of octets minus one |
| Uslp.ChannelOnWire | oresat_c3/protocols/uslp.py:66-69 | the VCID and the command bit read straight from octets 2, 3 and 6 are those of the header |
| Uslp.MadeFrameShape | oresat_c3/protocols/uslp.py:145-167 | the shape of every frame made: well formed, insert zone only when secured, payload then trailer |
| Uslp.FrameEndToEnd | oresat_c3/protocols/uslp.py:66-84 | every frame that can be sent unpacks to itself, with its insert zone or with none |
| Uslp.MadeOnTheWire | oresat_c3/protocols/uslp.py:138-169 | every octet of a frame that can be sent, from its arguments: header, insert zone, data field with its code, control word, checksum |
| Uslp.AcceptedIff | oresat_c3/protocols/uslp.py:58-84 | exactly which octets are accepted as a frame, by version, flags, lengths, checksum and spacecraft, and which are refused for naming another spacecraft |
| Uslp.AcceptedHolds | oresat_c3/protocols/uslp.py:66-84 | what an accepted frame holds: packed again it is what was received, and it has a six-octet insert zone exactly on a secured channel |
| Uslp.SecureEndToEnd | oresat_c3/protocols/uslp.py:66-84 | end to end, for non-command frames: unpacking and verifying succeeds and returns the payload and the sequence number, 0 on VCID 2 |
| Sdls.MaskInPlace | oresat_c3/protocols/sdls.py:55-56 | the masking loop changes the covered octets to their conjunction with the mask and no other |
| Sdls.BuildAuthenticatedData | oresat_c3/protocols/sdls.py:50-56 | the octets that are authenticated: masked header, security header, data field |
| Sdls.Apply | oresat_c3/protocols/sdls.py:42-60 | error or new frame exactly as specified: on VCID 0 and 1 the security header in the insert zone and the code appended, on VCID 2 nothing |
| Sdls.Verify | oresat_c3/protocols/sdls.py:62-85 | the sequence number or the error, and the code stripped from the data zone whether or not it was right; which codes are right is Sdls.AcceptedIffAuthentic |
| Sdls.AcceptedIffAuthentic | oresat_c3/protocols/sdls.py:62-85 | a frame on a secured channel is accepted if and only if its data zone ends in the digest of the octets laid out here, and is refused for its code otherwise |
| Sdls.OtherCodeRefused | oresat_c3/protocols/sdls.py:79-82 | an accepted frame with any other 32 octets for its code is refused |
| Sdls.RefusedUnlessSecured | oresat_c3/protocols/sdls.py:62-76 | without a key, an insert zone or an index for its channel nothing is accepted, with each error |
| Sdls.ApplyRefuses | oresat_c3/protocols/sdls.py:42-52 | why securing a frame is refused, in order |
| Sdls.VerifyAfterApply | oresat_c3/protocols/sdls.py:42-85 | verifying what was applied succeeds, returns the sequence number and restores the payload |
| Sdls.MaskedHeader | oresat_c3/protocols/sdls.py:52-56 | what the mask leaves of a header: the VCID and MAP id octets and zeros everywhere else |
| Sdls.AuthenticatedExactly | oresat_c3/protocols/sdls.py:50-58 | any two frames have the same authenticated octets if and only if VCID, MAP id, length of the frame count, sequence number and data field agree: nothing else in the header is protected |
| Sdls.AuthenticatedOctets | oresat_c3/protocols/sdls.py:50-58 | the authenticated octets themselves, laid out |
| EdlPackets.Pack | oresat_c3/protocols/edl_packet.py:83-108 | packs the payload, makes the frame without the control word it is given, and packs that; each failure is the error raised |
| EdlPackets.FromFrame | oresat_c3/protocols/edl_packet.py:110-143 | verifies, then decodes by VCID and by direction; each failure is the error raised |
| EdlPackets.ReceivedIffAuthentic | oresat_c3/protocols/edl_packet.py:110-143 | a frame is received as a packet if and only if it is on a secured channel, carries the right code, and the octets under it parse; and what the packet then is |
| EdlPackets.ForgedCodeRefused | oresat_c3/protocols/edl_packet.py:110-143 | a packet that packs, with any other code, is refused for its code |
| EdlPackets.PackedOnTheWire | oresat_c3/protocols/edl_packet.py:83-108 | every octet of a packet that packs |
| EdlPackets.PacketEndToEnd | oresat_c3/protocols/edl_packet.py:83-143 | every packet that packs, sent in the direction its kind belongs to, is received as the packet its receiver should see, over frame, security and codec together |
| EdlPackets.SamePacketIff | oresat_c3/protocols/edl_packet.py:73-81 | the packet received equals the packet sent if and only if it travels in the direction its kind belongs to and its command message is canonical |
| Divisors.GcdIsGreatest | oresat_c3/drivers/si41xx.py:214 | the gcd divides both and every common divisor divides it |
| Si41xxDividers.CalcDiv | oresat_c3/drivers/si41xx.py:211-229 | the halving loop and the two quotients are the specified ones, with each error |
| Si41xxDividers.HalvingBounds | oresat_c3/drivers/si41xx.py:216-220 | after the halvings the phase detector frequency is below the maximum, and at least 500 kHz if any halving happened |
| Si41xxDividers.QuotientExact | oresat_c3/drivers/si41xx.py:222-226 | a quotient within its bound has no truncation error, although a halving may have truncated |
| Si41xxDividers.DividersExact | oresat_c3/drivers/si41xx.py:222-229 | whenever dividers are returned for positive frequencies, N times the reference equals R times the frequency |
| Si41xxDividers.AcceptedIff | oresat_c3/drivers/si41xx.py:214-229 | exactly when dividers are returned and when the bounds error is raised, for all positive frequencies: the ratio in lowest terms, scaled by the power of two that halving leaves, must fit; and the dividers are those |
| Si41xxDividers.ProgrammableIff | oresat_c3/drivers/si41xx.py:216-227 | some pair the chip can be given has the ratio and keeps the phase detector within its limits if and only if the gcd reaches the lower limit and the ratio in lowest terms fits once scaled by the least that brings the gcd below the upper one |
| Si41xxDividers.UnjustifiedIff | oresat_c3/drivers/si41xx.py:211-229 | exactly when an error is raised although such a pair exists: the ratio fits scaled by that least factor, but not by the power of two that halving leaves |
| Si41xxDividers.BoundsErrorJustified | oresat_c3/drivers/si41xx.py:226-227 | when the bounds error is raised, no such pair exists if and only if the ratio scaled by the least factor does not fit; always so for a gcd below 2 MHz |
| Si41xxDividers.NoDetectorJustified | oresat_c3/drivers/si41xx.py:219-220 | when the error of no detector frequency is raised, no such pair exists |
| Si41xxDividers.BoundsErrorUnjustified | oresat_c3/drivers/si41xx.py:216-227 | two frequencies for which the bounds error is raised although 60000 over 3 is exact, fits, and has a phase detector at 700 kHz |
| Si41xxDividers.RatioAloneIsNotEnough | oresat_c3/drivers/si41xx.py:216-227 | two frequencies for which it is rightly raised although their ratio fits in lowest terms: the detector would run above its limit |
| Si41xxDividers.HalvingOvershoots | oresat_c3/drivers/si41xx.py:216-218 | halving scales the ratio by no less than the least factor, and below 2 MHz by no more |
| Si41xxDividers.RatioReduces | oresat_c3/drivers/si41xx.py:222-229 | any pair with the right ratio is a multiple of the reduced pair |
| Si41xx.Bus.SetSclk | oresat_c3/drivers/si41xx.py:178-193 | the receiver: a rising clock edge while the enable line is low shifts the data line in, and no other edge does |
| Si41xx.Bus.SetSen | oresat_c3/drivers/si41xx.py:174-193 | the receiver: raising the enable line decodes exactly 22 bits into a register write, and drops any other count |
| Si41xx.Si41xx.WriteReg | oresat_c3/drivers/si41xx.py:163-193 | after a write, the chip has received exactly this register and data, or nothing when the data is too large |
| Si41xx.Si41xx.SendWord | oresat_c3/drivers/si41xx.py:174-193 | the 22 bits go out most significant first, and the closing clock edge clocks nothing in |
| Si41xx.MessageFields | oresat_c3/drivers/si41xx.py:167-172 | the word splits back into register address and data |
| Si41xx.ReplayLastWrite | oresat_c3/drivers/si41xx.py:163-193 | after any sequence of writes each register holds the last value written to it |
| Si41xx.ReplayUnwritten | oresat_c3/drivers/si41xx.py:163-193 | a register no call wrote keeps its first value |
| Si41xx.Si41xx.Start | oresat_c3/drivers/si41xx.py:231-250 | the writes of a start in order, its errors, and the state it leaves |
| Si41xx.StartLeaves | oresat_c3/drivers/si41xx.py:231-250 | the writes of a start by their addresses, and what each register holds after them |
| Si41xx.Si41xx.StopChip | oresat_c3/drivers/si41xx.py:252-262 | the writes of a stop, which only a started chip gets |
| Si41xx.ConfigFields | oresat_c3/drivers/si41xx.py:279-294 | each field is read back from the configuration word, except that the DIV8 code overlaps the auxiliary select |
| Si41xx.ConfigFlags | oresat_c3/drivers/si41xx.py:279-294 | the four flags are read back from the configuration word |
| Si41xx.Si41xx.SetIf | oresat_c3/drivers/si41xx.py:372-382 | for positive frequencies the dividers found are programmed, and they synthesize the shifted frequency exactly |
| Si41xx.Si41xx.SetIfDiv | oresat_c3/drivers/si41xx.py:384-390 | the mode is stored and written |
| Si41xx.SetIfFrequency | oresat_c3/drivers/si41xx.py:372-375 | the programmed dividers give the frequency times the mode's ratio exactly for DIV1 and DIV2, and for no other mode |
| Overpass.Scan | oresat_c3/subsystems/adcs/guidance_functions.py:292-295 | the first sample of a range with the wanted status, and none before it |
| Overpass.ScanRange | oresat_c3/subsystems/adcs/guidance_functions.py:292-325 | each of the three scan loops returns that first sample |
| Overpass.FineScanFindsEntry | oresat_c3/subsystems/adcs/guidance_functions.py:308-318 | the fine scan always finds the entry, because the coarse hit lies on its 5 s grid |
| Overpass.FindPass | oresat_c3/subsystems/adcs/guidance_functions.py:290-336 | a long pass is a window: entry in range, every 5 s sample in range, its end out of range, 300 to 3600 s |
| Overpass.EntryIsRisingEdge | oresat_c3/subsystems/adcs/guidance_functions.py:308-318 | the window begins where the range is entered: at the offset of the search, or with the sample before it out of range |
| Overpass.SkippedPassIsShort | oresat_c3/subsystems/adcs/guidance_functions.py:320-336 | a pass is skipped only if it is seen to last less than 300 s |
| Overpass.UnclosedStaysInRange | oresat_c3/subsystems/adcs/guidance_functions.py:320-325 | a window that is not seen to close is in range at every sample of an hour |
| Overpass.NoPassMeansGaps | oresat_c3/subsystems/adcs/guidance_functions.py:292-304 | when the coarse scan finds nothing, no five minutes of the rest are spent in range |
| Overpass.NoneMeansGaps | oresat_c3/subsystems/adcs/guidance_functions.py:288-344 | what a returned None means: from where the search looked last to the end, every five minutes have a second out of range |
| Overpass.ShortPassEndsBefore | oresat_c3/subsystems/adcs/guidance_functions.py:290-336 | a short pass ends before any five minutes in range that begin after the offset it was searched from |
| Overpass.MissedStays | oresat_c3/subsystems/adcs/guidance_functions.py:288-344 | a search that returns None misses five minutes in range only if they begin in the 2000 s skipped after a short pass it visited |
| Overpass.MissedStay | oresat_c3/subsystems/adcs/guidance_functions.py:336-344 | such a stay: ten seconds in range, then five minutes ten minutes later, and None |
| Overpass.SearchEnding | oresat_c3/subsystems/adcs/guidance_functions.py:288-344 | a search ends with no window, or with a long pass it found, starting 100 s early but not before 0 |
| Overpass.ScanPass | oresat_c3/subsystems/adcs/guidance_functions.py:290-325 | the three scans of one iteration compute that pass, leaving the exit at 0 when it is not seen |
| Overpass.ReturnsIffHalts | oresat_c3/subsystems/adcs/guidance_functions.py:288-336 | the loop returns if and only if its run from 0 s or its run from 2000 s meets no window that stays open through the exit scan; and then it returns that run's ending |
| Overpass.ClosingWindowsHalt | oresat_c3/subsystems/adcs/guidance_functions.py:288-336 | it returns whenever every window it enters is seen to close |
| Overpass.AlwaysInRangeHaltsIff | oresat_c3/subsystems/adcs/guidance_functions.py:288-336 | a spacecraft always in range: the search returns exactly when there is nothing after 2000 s to search |
| Overpass.SearchLoop | oresat_c3/subsystems/adcs/guidance_functions.py:288-344 | the loop, with its termination measure, returns the search's ending |
| Overpass.TimeToOverpass | oresat_c3/subsystems/adcs/guidance_functions.py:285-344 | the window returned satisfies the window definition and starts 100 s before entry, or no window is returned |
| Quaternions.ProductNorm | oresat_c3/subsystems/adcs/quaternion.py:81-89 | the norm of a product is the product of the norms |
| Quaternions.ProductOfUnits | oresat_c3/subsystems/adcs/quaternion.py:65-90 | for unit quaternions the final normalisation changes nothing, and the product is a unit quaternion |
| Quaternions.NormalizeUnit | oresat_c3/subsystems/adcs/quaternion.py:61-62 | normalising gives a unit quaternion |
| Quaternions.AttitudeOfProduct | oresat_c3/subsystems/adcs/quaternion.py:65-90 | the attitude matrix of a product is the product of the attitude matrices |
| Quaternions.AttitudeActs | oresat_c3/subsystems/adcs/quaternion.py:65-90 | what the attitude matrix of a quaternion does to a vector, in its scalar and vector parts |
| Quaternions.HemiSameAttitude | oresat_c3/subsystems/adcs/quaternion.py:44-45 | the hemisphere check keeps norm and attitude and leaves the scalar part non-negative |
| Quaternions.ErrorTakesTargetToCurrent | oresat_c3/subsystems/adcs/quaternion.py:93-109 | the error quaternion is the rotation that takes the target attitude to the current one |
| Quaternions.ErrorUpperHemisphereIff | oresat_c3/subsystems/adcs/quaternion.py:93-109 | the error is in the upper hemisphere, as documented, if and only if target and current have a non-negative inner product |
| Quaternions.ErrorInLowerHemisphere | oresat_c3/subsystems/adcs/quaternion.py:93-109 | it is not for any attitude given by both its quaternions: the error of q and -q has scalar part -1 |
| Quaternions.BranchPicksDominant | oresat_c3/subsystems/adcs/quaternion.py:194-209 | the branch taken for the matrix of a unit quaternion picks a component whose square is at least 1/4 |
| Quaternions.FromDcmInverts | oresat_c3/subsystems/adcs/quaternion.py:192-217 | applied to the attitude matrix of a unit quaternion q, the routine returns q or -q, divides by no zero, and its normalisation is the identity |
| Quaternions.SameAttitudeIff | oresat_c3/subsystems/adcs/quaternion.py:192-217 | two unit quaternions have the same attitude matrix if and only if they are equal or opposite |
| Matrices.CongruencePsd | oresat_c3/subsystems/adcs/kalman_filter.py:137 | M P M^T is symmetric positive semidefinite when P is, for every M |
| Mekf.ProcessNoisePsdIff | oresat_c3/subsystems/adcs/kalman_filter.py:203-207 | the process noise is positive semidefinite exactly for a non-negative time step, unless both noises are zero |
| Mekf.InitialCovariancePsd | oresat_c3/subsystems/adcs/kalman_filter.py:58 | the covariance of a reset is positive semidefinite |
| MekfTrig.TurnDefined | oresat_c3/subsystems/adcs/kalman_filter.py:122-133 | for every step forward in time the propagation quaternion is divided by a positive norm, which is 1 beyond small angles |
| MekfTrig.TurnIsRotation | oresat_c3/subsystems/adcs/kalman_filter.py:122-133 | beyond small angles it is the exact rotation about the rate by rate times time |
| MekfTrig.TransitionMatchesTurn | oresat_c3/subsystems/adcs/kalman_filter.py:183-201 | the rotation block of the transition matrix is the attitude matrix of the propagation quaternion, entry by entry |
| MekfTrig.CorrectionRotatesByDegrees | oresat_c3/subsystems/adcs/kalman_filter.py:159-166 | a correction by an angle in radians rotates by that many degrees |
| MekfTrig.CorrectionRightIff | oresat_c3/subsystems/adcs/kalman_filter.py:159-166 | it is the rotation asked for if and only if the angle lost by taking radians for degrees is a multiple of half a turn of the quaternion, and the same quaternion for whole turns, where sine and cosine agree exactly at whole turns |
| MekfTrig.CorrectionRotatesTooLittle | oresat_c3/subsystems/adcs/kalman_filter.py:159-166 | it is not for any increment of up to a whole turn, nor the same quaternion for any of up to two |
| Innovation.InverseIsInverse | oresat_c3/subsystems/adcs/kalman_filter.py:154 | the adjugate over the determinant is the inverse of a 3x3 matrix with non-zero determinant |
| Innovation.PositiveDefiniteDet | oresat_c3/subsystems/adcs/kalman_filter.py:154 | a positive definite 3x3 matrix has a positive determinant |
| Mekf.InnovationPositive | oresat_c3/subsystems/adcs/kalman_filter.py:154 | the matrix the correction inverts is positive definite and invertible for every positive semidefinite covariance and non-zero sigma_star |
| Mekf.GainEquation | oresat_c3/subsystems/adcs/kalman_filter.py:154 | the gain times the innovation covariance is P H^T |
| Mekf.JosephSubtracts | oresat_c3/subsystems/adcs/kalman_filter.py:170-172 | with this gain the Joseph form equals P minus K S K^T |
| Mekf.CorrectionReducesVariance | oresat_c3/subsystems/adcs/kalman_filter.py:153-172 | a correction increases the variance of no combination of the state |
| Mekf.CorrectionKeepsPsd | oresat_c3/subsystems/adcs/kalman_filter.py:170-181 | Joseph update, symmetrisation and reset mapping keep the covariance positive semidefinite for every gain, and the symmetrisation changes nothing |
| MekfFilter.PropagationKeepsPsd | oresat_c3/subsystems/adcs/kalman_filter.py:136-137 | propagation keeps it for every transition matrix and non-negative time step |
| MekfFilter.PredictionKeepsInv | oresat_c3/subsystems/adcs/kalman_filter.py:109-137 | a prediction keeps the invariant and leaves a unit quaternion |
| MekfFilter.CorrectionKeepsInv | oresat_c3/subsystems/adcs/kalman_filter.py:139-181 | a correction keeps the invariant and leaves a unit quaternion with non-negative scalar part |
| MekfFilter.UpdateKeepsInv | oresat_c3/subsystems/adcs/kalman_filter.py:60-107 | so does every update |
| MekfFilter.EveryRunIsSound | oresat_c3/subsystems/adcs/kalman_filter.py:49-107 | for every reset and every run of updates at non-decreasing times the covariance is positive semidefinite and the next matrix to invert is positive definite |
| MekfDefinite.TransitionInvertible | oresat_c3/subsystems/adcs/kalman_filter.py:183-201 | the transition matrix is invertible for every rate and step, in both of its branches |
| MekfDefinite.TurnedNorm | oresat_c3/subsystems/adcs/kalman_filter.py:189-193 | what its rotation block does to the norm of a vector, for any two coefficients |
| MekfDefinite.ResetInvertible | oresat_c3/subsystems/adcs/kalman_filter.py:176-180 | the reset mapping is invertible for every increment |
| MekfDefinite.JosephDefinite | oresat_c3/subsystems/adcs/kalman_filter.py:170-172 | the Joseph update keeps a positive definite covariance so, for every gain |
| MekfDefinite.EveryRunIsDefinite | oresat_c3/subsystems/adcs/kalman_filter.py:49-181 | with positive initial variances the covariance is positive definite after every run, not merely semidefinite |
| MekfSteering.InnovationIsError | oresat_c3/subsystems/adcs/kalman_filter.py:148-151 | the innovation is twice the vector part of a rotation, of at most half a turn, that takes the estimated attitude to the measured one |
| MekfSteering.CorrectionIsOptimal | oresat_c3/subsystems/adcs/kalman_filter.py:153-157 | the change a correction makes is the least-squares optimum: no other change the covariance allows explains the innovation at a lower cost, and for a definite covariance every other costs more |
| MekfSteering.CorrectionTurnsTowards | oresat_c3/subsystems/adcs/kalman_filter.py:148-157 | a correction never turns away from the measurement, is seen to turn by less than the innovation, and for a definite covariance does turn towards it |
| MekfSteering.CorrectedState | oresat_c3/subsystems/adcs/kalman_filter.py:159-168 | attitude and bias after a correction: turned by the rotation of the change's first three entries, and moved by its last three |
| MekfSteering.PredictedState | oresat_c3/subsystems/adcs/kalman_filter.py:82-134 | attitude after a prediction: turned by the mean or held rate, less the bias, over the step; the bias and the time kept |
| MekfSteering.UpdatedState | oresat_c3/subsystems/adcs/kalman_filter.py:82-107 | an update is a prediction, a correction if there is a measurement, and the time if there is anything new |
| MekfDynamics.InitialVariances | oresat_c3/subsystems/adcs/kalman_filter.py:58 | the variances of a reset: one for each attitude axis, another for each bias, no correlation |
| MekfDynamics.ProcessVariances | oresat_c3/subsystems/adcs/kalman_filter.py:203-207 | the noise of a step, axis by axis |
| MekfDynamics.StepsCompose | oresat_c3/subsystems/adcs/kalman_filter.py:136-137 | at rest two steps of the covariance are one step of their sum, for any two steps |
| MekfDynamics.CouplingMatchesTurn | oresat_c3/subsystems/adcs/kalman_filter.py:183-201 | how a bias error turns into an attitude error: across the rate by what the rotation block moves, along it by minus the step; the series for small rates leaves out a third power |
| MekfDynamics.ResetMapActs | oresat_c3/subsystems/adcs/kalman_filter.py:176-181 | the reset mapping turns the attitude part by half the increment's cross product and keeps the bias part |
| MekfDynamics.HalfSincBetween | oresat_c3/subsystems/adcs/kalman_filter.py:122-131 | both branches of the half-angle factor lie within a 48th of the squared angle below one half |
| MekfFilter.MEKF.ResetState | oresat_c3/subsystems/adcs/kalman_filter.py:49-58 | the whole state after a reset |
| MekfFilter.MEKF.Prediction | oresat_c3/subsystems/adcs/kalman_filter.py:109-137 | the whole state after a prediction |
| MekfFilter.MEKF.Correction | oresat_c3/subsystems/adcs/kalman_filter.py:139-181 | the whole state after a correction, which MekfSteering.CorrectedState and MekfSteering.InnovationIsError describe |
| MekfFilter.MEKF.Update | oresat_c3/subsystems/adcs/kalman_filter.py:60-107 | the whole state after an update: midpoint or held rate, correction if measured, and the time moved only by new information (MekfSteering.UpdatedState) |
| FileContents.WriteAt | oresat_c3/protocols/cachestore.py:81-88 | every octet of the file after a write: the data, the old octets, or zeros in a gap |
| FileContents.AssembledOctets | oresat_c3/protocols/cfdp.py:99-110 | after any segments in any order and with any repeats: exact length, every covered octet correct, zeros elsewhere |
| FileContents.ReassembledIff | oresat_c3/protocols/cfdp.py:99-110 | the destination equals the source if and only if the segments cover its last octet and every octet that is not zero; in particular whenever they cover all of it |
| FileContents.AssemblyDependsOnCoverage | oresat_c3/protocols/cfdp.py:99-110 | two transfers that cover the same octets leave the same file |
| CacheStores.AgreementKeptIffSafe | oresat_c3/protocols/cachestore.py:67-144 | each operation keeps index and directory in agreement if and only if it is no rename onto another existing file and no replacement of a file by itself |
| CacheStores.FollowsMap | oresat_c3/protocols/cachestore.py:67-144 | while they agree, contents follow a plain map and only a bad seek raises an operating-system error |
| CacheStores.RunAgrees | oresat_c3/protocols/cachestore.py:67-144 | over every sequence of safe operations the index stays sorted, duplicate-free and equal to the directory's names, and contents follow the map |
| CacheStores.Outcomes | oresat_c3/protocols/cachestore.py:67-144 | which outcome each operation has, by names alone and in the order of the checks, whatever the index and the directory |
| CacheStores.SeekFrom | oresat_c3/protocols/cachestore.py:81-86 | where a write starts, for each origin of its offset |
| CacheStores.CreateTouches | oresat_c3/protocols/cachestore.py:103 | a file left in the directory keeps its contents when it is created |
| CacheStores.InsortLeftSorted | oresat_c3/protocols/cachestore.py:104 | inserting keeps the index sorted |
| CacheStores.InsortLeftMembers | oresat_c3/protocols/cachestore.py:104 | inserting adds one name, and keeps the index duplicate-free exactly when the name was not in it |
| CacheStores.RemoveFirstMembers | oresat_c3/protocols/cachestore.py:113 | removing takes the name out of a duplicate-free index and nothing else |
| CacheStores.CacheStore.FileExists | oresat_c3/protocols/cachestore.py:49-51 | whether the index has the name |
| CacheStores.CacheStore.ReadData | oresat_c3/protocols/cachestore.py:23-32 | the octets at an offset, or the error, also when the index names a file that is gone |
| CacheStores.CacheStore.CreateFile | oresat_c3/protocols/cachestore.py:91-105 | new store and outcome as specified |
| CacheStores.CacheStore.DeleteFile | oresat_c3/protocols/cachestore.py:107-115 | new store and outcome as specified |
| CacheStores.CacheStore.RenameFile | oresat_c3/protocols/cachestore.py:117-130 | new store and outcome as specified |
| CacheStores.CacheStore.ReplaceFile | oresat_c3/protocols/cachestore.py:132-144 | new store and outcome as specified |
| CacheStores.CacheStore.TruncateFile | oresat_c3/protocols/cachestore.py:67-73 | new store and outcome as specified |
| CacheStores.CacheStore.WriteData | oresat_c3/protocols/cachestore.py:75-89 | new store and outcome as specified |
| CacheStores.CacheStore.CalcModularChecksum | oresat_c3/protocols/cachestore.py:171-187 | the loop of four-octet reads returns the modular checksum of the whole file, or the error of its first read |
| CacheStores.CacheStore.CalculateChecksum | oresat_c3/protocols/cachestore.py:189-221 | for every call that returns: each error in order, that of a missing file included; the CRCs are those of the first octets to verify, whatever the segment length |
| CacheStores.CacheStore.CrcOfPrefix | oresat_c3/protocols/cachestore.py:208-220 | the resumable loop ends and equals the CRC of the prefix, or ends with the error of its first read |
| CacheStores.CrcLoopReturnsIff | oresat_c3/protocols/cachestore.py:208-220 | that loop ends if and only if there is nothing to verify or the segment length is positive |
| CacheStores.ChecksumKinds | oresat_c3/protocols/cachestore.py:204-207 | the two kinds give the published check values, most significant octet first |
| Checksums.WordIsWeightedSum | oresat_c3/protocols/cachestore.py:180-184 | a padded big-endian word is the position-weighted sum of the octets read |
| Checksums.PartitionChecksum | oresat_c3/protocols/cachestore.py:176-187 | over any segments that hold each octet once, aligned or not and in any order, partial sums add up to the checksum |
| Checksums.ModularOfPrefixIff | oresat_c3/protocols/cachestore.py:200-201 | the modular checksum ignores how much was to be verified: it equals the prefix's exactly when the rest of the file weighs 0 modulo 2^32 |
| Checksums.CrcResumes | oresat_c3/protocols/cachestore.py:211-219 | resuming from the CRC of a gives the CRC of a followed by b |
| CfdpDest.CancellationStops | oresat_c3/protocols/cfdp.py:160-187 | with the cancellation handler and no acknowledgement: idle exactly after 2L expiries, exactly 2L Finished PDUs by then, L before and L after cancellation |
| CfdpDest.WaitEndsIff | oresat_c3/protocols/cfdp.py:160-187 | for every fault handler and every run: when the wait is over, and when it never ends by itself |
| CfdpDest.FinishedBounded | oresat_c3/protocols/cfdp.py:269-293 | no run sends more than 2L Finished PDUs, and none follows once idle |
| CfdpDest.EndsFresh | oresat_c3/protocols/cfdp.py:160-187 | a wait that is over leaves no count and no cancellation behind |
| CfdpDest.RunDescribed | oresat_c3/protocols/cfdp.py:160-187 | the state after every run, in closed form from the expiries before the first acknowledgement |
| CfdpDest.CycleReturnsIff | oresat_c3/protocols/cfdp.py:160-187 | activation by activation of the state machine: a cycle comes back, in the state the step says, if and only if it is no ignored or suspended fault on a cancelled transaction at its limit |
| CfdpDest.FixedDestHandler.HandlePositiveAckProcedures | oresat_c3/protocols/cfdp.py:160-187 | one cycle that comes back: nothing, a repeated Finished PDU, or the limit reached |
| CfdpDest.FixedDestHandler.DeclareFault | oresat_c3/protocols/cfdp.py:269-293 | the fault handler chosen, a second cancellation turned into abandonment, and the state it leaves |
| Fram.Fm24cl64b.Read | oresat_c3/drivers/fm24cl64b.py:73-86 | the octets asked for, or the error in the order the checks come |
| Fram.Fm24cl64b.Write | oresat_c3/drivers/fm24cl64b.py:121-136 | the memory after a write, or the error with the memory unchanged |
| Fram.Fm24cl64b.Clear | oresat_c3/drivers/fm24cl64b.py:146-149 | only the first half is wiped |
| Fram.ReadBack | oresat_c3/drivers/fm24cl64b.py:84-86 | reading back what was written gives it |
| Fram.Refusals | oresat_c3/drivers/fm24cl64b.py:73-136 | which error refuses a read or a write, in the order of the checks |
| Fram.OctetAfter | oresat_c3/drivers/fm24cl64b.py:121-149 | each octet after a write and after a clear |
| PersistentState.StateStore.StoreState | oresat_c3/services/state.py:268-287 | the memory after the store loop and the error that stopped it; nothing is stored in PRE_DEPLOY |
| PersistentState.StateStore.RestoreState | oresat_c3/services/state.py:289-306 | the objects after the restore loop and the error that stopped it; the fallback for an empty status is never taken |
| PersistentState.StateStore.ClearState | oresat_c3/services/state.py:308-326 | the memory after a clear and the loop that writes the keys back |
| PersistentState.StoredIsImage | oresat_c3/services/state.py:274-287 | storing fixed-size objects that fit puts their values end to end and touches nothing else |
| PersistentState.RestoredFromImage | oresat_c3/services/state.py:292-306 | restoring from that image gives the values back |
| PersistentState.StoreRestoreIff | oresat_c3/services/state.py:268-306 | store then restore brings back every value that is not a DOMAIN if and only if each is as long as its default, none is empty, and they fit |
| PersistentState.ShortStringsMoveNothing | oresat_c3/services/state.py:268-306 | octet strings shorter than their defaults move no other object: every value comes back at the start of what is restored for it |
| PersistentState.ClearRestore | oresat_c3/services/state.py:308-326 | clear then restore: keys as they were, everything else as the wiped memory has it |
| PersistentState.ClearKeepsOnlyKeys | oresat_c3/services/state.py:308-326 | object by object: keys survive a clear, every other object comes back as the wiped memory has it; zeros in the wiped half, unchanged past it |
| C3State.AntennasFireSafely | oresat_c3/services/state.py:141-163 | over every run, with the state variable written at will: no more firings than attempts, each more than the reattempt timeout after the last, none once deployed |
| C3State.DeployedAfterAllAttempts | oresat_c3/services/state.py:141-163 | with a fixed limit the satellite counts as deployed only after every attempt has been made |
| C3State.OnlyDeployFires | oresat_c3/services/state.py:144-163 | what a step does to firings, attempts and the deployed flag |
| C3State.FiresIff | oresat_c3/services/state.py:141-155 | a loop fires the antennas if and only if it is in DEPLOY, with attempts left and the timeout passed |
| C3State.EveryAttemptIsMade | oresat_c3/services/state.py:141-155 | over a run of loops that each come past the timeout, every attempt is made, once each, with its times |
| C3State.DeploymentCompletes | oresat_c3/services/state.py:130-163 | from PRE_DEPLOY: the first loop past its timeout begins the deployment, as many firings as the limit follow, and the next loop ends it in STANDBY, deployed |
| C3State.DeploymentEnds | oresat_c3/services/state.py:157-163 | the loop that ends the deployment sets the control mode and the flag, and no other does |
| C3State.LoopsFollowDiagram | oresat_c3/services/state.py:194-228 | a loop changes the state only along the documented diagram, and ends in BEACON only with the transmitter not timed out or a reset due |
| C3State.EndsIn | oresat_c3/services/state.py:130-222 | which state a loop ends in, from the state, the clocks and the timeouts, for each state if and only if |
| C3State.ResetsIff | oresat_c3/services/state.py:165-183 | when a loop requests a reset |
| C3State.TransmitsIff | oresat_c3/services/state.py:130-197 | when the transmitter is on after a loop, and when it was last switched on |
| C3State.StoredEveryTenth | oresat_c3/services/state.py:229-233 | over every run of loops the state is stored once in ten |
| C3State.StartsIn | oresat_c3/services/state.py:82-98 | the state a service starts in, for every stored status |
| C3State.WritesChange | oresat_c3/services/state.py:103-112 | what is written from outside changes the state alone, or the transmitter and its second |
| C3State.FallbackIffOffline | oresat_c3/services/state.py:199-220 | the branch that repairs a state is reached from OFFLINE alone; every value that names no state raises before it |
| C3State.InvalidStateStays | oresat_c3/services/state.py:199-220 | so such a value is never repaired: every later loop raises and nothing is stored |
| C3State.StateService.OnLoop | oresat_c3/services/state.py:194-235 | one loop over the clock readings |
| C3State.StateService.constructor | oresat_c3/services/state.py:82-98 | the machine a start leaves: EDL becomes STANDBY and an invalid state PRE_DEPLOY |
| Max7310s.SetAndClearBits | oresat_c3/drivers/max7310.py:143-180 | setting or clearing pins changes those pins and no other |
| Max7310s.Max7310.OutputSet | oresat_c3/drivers/max7310.py:143-160 | the register file after setting pins, or the error with it unchanged |
| Max7310s.Max7310.OutputClear | oresat_c3/drivers/max7310.py:162-180 | the register file after clearing pins, or the error with it unchanged |
| Max7310s.Max7310.Configure | oresat_c3/drivers/max7310.py:112-133 | the register file after a configuration |
| Max7310s.Max7310.Reset | oresat_c3/drivers/max7310.py:135-141 | the register file after a reset |
| Max7310s.Max7310.PinMask | oresat_c3/drivers/max7310.py:152-156 | the mask the loop over pins builds, or the error for a pin that does not exist |
| Max7310s.Max7310.OutputStatus | oresat_c3/drivers/max7310.py:182-193 | one output pin |
| Max7310s.Max7310.InputStatus | oresat_c3/drivers/max7310.py:195-206 | one input pin |
| OpdNodes.OpdNode.Configure | oresat_c3/subsystems/opd.py:84-93 | the card after its chip is configured, or in fault |
| OpdNodes.OpdNode.Probe | oresat_c3/subsystems/opd.py:95-135 | the card after a probe, and whether it was found |
| OpdNodes.OpdNode.SwitchOn | oresat_c3/subsystems/opd.py:137-158 | what every card on an expander does to switch on |
| OpdNodes.OpdNode.SelectBoot | oresat_c3/subsystems/opd.py:309-318 | boot pin and pin directions, in the two orders STM32 and MCXN cards use |
| OpdNodes.OpdNode.Enable | oresat_c3/subsystems/opd.py:294-320 | switching on, for all five kinds of card |
| OpdNodes.OpdNode.Disable | oresat_c3/subsystems/opd.py:322-335 | switching off, for all five kinds of card |
| OpdNodes.OpdNode.Reset | oresat_c3/subsystems/opd.py:180-206 | the reset loop, which ends at the first attempt without a fault |
| OpdNodes.OpdNode.EnableUart | oresat_c3/subsystems/opd.py:337-344 | connecting, which cards without the pin ignore |
| OpdNodes.OpdNode.DisableUart | oresat_c3/subsystems/opd.py:346-353 | disconnecting |
| OpdNodes.OpdNode.Status | oresat_c3/subsystems/opd.py:226-237 | reading the status brings it up to date |
| OpdNodes.Opd.Scan | oresat_c3/subsystems/opd.py:837-856 | every card probed once, and how many were found |
| OpdNodes.Opd.Enable | oresat_c3/subsystems/opd.py:777-790 | switching the domain on scans it; a dead domain raises |
| OpdNodes.Opd.Disable | oresat_c3/subsystems/opd.py:792-805 | every card found is switched off, the UART is let go, and the domain is off |
| OpdNodes.Opd.UartDisconnect | oresat_c3/subsystems/opd.py:888-891 | the selected card is disconnected and forgotten |
| OpdNodes.Opd.UartNode | oresat_c3/subsystems/opd.py:893-901 | reading the selection lets go of a card that was lost |
| OpdNodes.Opd.SetUartNode | oresat_c3/subsystems/opd.py:903-910 | selecting lets go of the last card first, even when the new name raises |
| OpdNodes.Opd.OneCardChanged | oresat_c3/subsystems/opd.py:774-775 | an operation on one card's objects changes that card and no other: no two cards share an object |
| Opds.NoOtherSetsUartPin | oresat_c3/subsystems/opd.py:84-206 | no operation on a card other than the UART ones sets its UART pin |
| Opds.ReleaseClears | oresat_c3/subsystems/opd.py:346-353 | letting go of a card disconnects it exactly when it answers |
| Opds.SelectConnects | oresat_c3/subsystems/opd.py:337-344 | which cards are connected by being selected |
| Opds.ExclusiveKeptIff | oresat_c3/subsystems/opd.py:777-910 | each operation keeps at most the selected card connected if and only if it lets go of no connected card that does not answer |
| Opds.RunExclusive | oresat_c3/subsystems/opd.py:777-910 | so does every run without such an event |
| Opds.UartExclusive | oresat_c3/subsystems/opd.py:903-910 | with a working bus, over every sequence of operations, a card with its UART pin set is the selected one and no two are connected |
| Opds.EnableSelectsBootMode | oresat_c3/subsystems/opd.py:309-320 | enabling an STM32 or MCXN card that was found leaves it in the boot mode asked for, its boot pin driven exactly when high, its fault pin an input |
| Opds.RunNeverFaults | oresat_c3/subsystems/opd.py:807-835 | over every run the domain is only off or on: FAULT and DEAD are never reached |
| Opds.ResetsCounted | oresat_c3/subsystems/opd.py:84-206 | of the domain's operations only a card's own reset resets it |
| OpdNodes.FoundCountIs | oresat_c3/subsystems/opd.py:837-856 | a scan counts the cards that answer, and were not given up |
| OpdPins.ConfiguredChip | oresat_c3/subsystems/opd.py:84-93 | the registers a configuration leaves |
| OpdPins.ProbedChip | oresat_c3/subsystems/opd.py:95-135 | what a probe leaves of a card that answers and of one that does not |
| OpdPins.EnabledChip | oresat_c3/subsystems/opd.py:294-320 | pin by pin, what enabling leaves of a card that answers |
| OpdPins.DisabledChip | oresat_c3/subsystems/opd.py:322-335 | pin by pin, what disabling leaves |
| OpdPins.ResetChip | oresat_c3/subsystems/opd.py:180-206 | pin by pin, what a reset leaves, and the status by the fault line |
| OpdPins.UartChip | oresat_c3/subsystems/opd.py:337-353 | pin by pin, what connecting and disconnecting leave |
| OpdPins.SilentChip | oresat_c3/subsystems/opd.py:84-237 | what every operation leaves of a card that does not answer: its registers, and a fault |
| OpdPins.ReadChip | oresat_c3/subsystems/opd.py:226-237 | a fault is seen only while the breaker is on |
| OpdPins.PowerDownCuts | oresat_c3/subsystems/opd.py:792-805 | switching the domain off switches off every card but one that does not answer, or answers while it is marked missing |
| OpdPins.PowerUpFinds | oresat_c3/subsystems/opd.py:777-790 | switching it on finds every card that answers, off and configured, and changes nothing if it is on |
| Opds.PowerUpDisconnects | oresat_c3/subsystems/opd.py:777-790 | whatever the chips hold when the domain is switched on, its scan leaves a card connected if and only if it was and does not answer or is dead |
| Opds.PowerUpExclusive | oresat_c3/subsystems/opd.py:777-790 | so when all answer and none is dead it leaves the UART free |
| NodeManagers.LoopedOne | oresat_c3/services/node_manager.py:231-289 | one supervisor loop seen from one card: state seen, reset counted or count cleared |
| NodeManagers.ResetsBounded | oresat_c3/services/node_manager.py:212-213 | once the supervisor's loops have reset a card three times over, over every run only the operator resets it: its resets grow by the operator's |
| NodeManagers.ResetsBetween | oresat_c3/services/node_manager.py:281-289 | over every run the loops' count is 0 to 3, and while no loop finds the node on or off its card is reset exactly as often as that count grows, at most three times, and as often as the operator resets it |
| NodeManagers.WhoResets | oresat_c3/services/node_manager.py:283-289 | which steps reset a card: a loop that finds it in error with the domain on and fewer than three resets counted, and the operator's own reset (oresat_c3/services/edl.py:376-383), which is not counted; and exactly what each step does to the count |
| NodeManagers.ObservedAllState | oresat_c3/services/node_manager.py:238-250 | the first pass decides every state from what the loop began with |
| NodeManagerStates.LoopFinds | oresat_c3/services/node_manager.py:157-229 | which state a loop finds a card in that has resets left, for each state if and only if, by the card's registers, the clock and the last heartbeat |
| NodeManagerStates.LoopFindsOthers | oresat_c3/services/node_manager.py:194-202 | and a node off the domain, by its heartbeats |
| NodeManagerStates.LoopFindsNothing | oresat_c3/services/node_manager.py:204-263 | with the domain off every node on it is found missing and no card is touched |
| NodeManagerStates.LoopedNode | oresat_c3/services/node_manager.py:269-289 | a node after a loop: state, count and time of the last enable |
| NodeManagerStates.LoopedCard | oresat_c3/services/node_manager.py:238-289 | a card after a loop, whatever the order of the nodes |
| NodeManagerStates.HungCardIsReset | oresat_c3/services/node_manager.py:182-287 | a loop that misses the heartbeats of a running card in flight, past its time to boot, finds it in error and resets it once; and it runs on |
| NodeManagerStates.HungCardIsResetAgain | oresat_c3/services/node_manager.py:182-287 | over up to three such loops it is reset by each |
| NodeManagerStates.HungCardIsGivenUp | oresat_c3/services/node_manager.py:182-289 | and the fourth finds it dead and switches it off |
| NodeManagerStates.UpdatingIsLeftAlone | oresat_c3/services/node_manager.py:160-161 | a node being updated is left alone by every loop, whatever its heartbeats |
| NodeManagerStates.SilentCardIsMissing | oresat_c3/services/node_manager.py:214-217 | a card that stops answering is found missing, and otherwise kept as it is |
| NodeManagerStates.MissingCardIsFound | oresat_c3/services/node_manager.py:275-276 | one that answers again is configured by the next tenth loop |
| NodeManagerStates.AlwaysOnIsSwitchedOn | oresat_c3/services/node_manager.py:278-279 | an always-on card found off is switched on by that loop, and no other is |
| NodeManagers.PassActs | oresat_c3/services/node_manager.py:269-289 | what the second pass makes of any card: enabled by the parents before its node, acted on once by the state its node was found in, enabled by the parents after it |
| NodeManagers.DeadStaysOff | oresat_c3/services/node_manager.py:212-289 | once its resets are used up, every loop with the domain on finds a card dead and leaves it with power if and only if an always-on parent that will be found off comes later in the order and the card was found or was on; one that does not answer keeps the power it had, and SPARE_8 follows its line |
| NodeManagerRuns.DeadNodeSwitchedOn | oresat_c3/services/node_manager.py:278-282 | a run from the start that ends with a card found dead and powered: four loops, a request, and one more loop |
| NodeManagerRuns.StartIsSound | oresat_c3/services/node_manager.py:91-123 | the supervisor starts in a state that meets every invariant |
| NodeManagerRuns.StartedRunIsSound | oresat_c3/services/node_manager.py:91-437 | so over every run from the start the count is 0 to 3, a card is dead only once it is used up, and with a working bus a connected card is the selected one |
| NodeManagers.DeadIffUsedUp | oresat_c3/services/node_manager.py:157-229 | over every run a card is found dead exactly when its three resets are used up, and then by every loop with the domain on: the branch that revives a dead card by its heartbeats is never reached |
| NodeManagers.ActedAllCard | oresat_c3/services/node_manager.py:269-289 | turns of other nodes enable a card, if one of them is such a parent, and do nothing else to it |
| NodeManagers.SupervisorKeepsUart | oresat_c3/services/node_manager.py:231-437 | whatever the supervisor does, its loops and requests included, keeps the UART exclusive if and only if it lets go of no connected card that does not answer |
| NodeManagers.SupervisorRunKeepsUart | oresat_c3/services/node_manager.py:231-437 | so does every run without such an event |
| NodeManagers.SupervisorUartExclusive | oresat_c3/services/node_manager.py:231-437 | with a working bus, over every run of the supervisor, a connected card is the selected one and no two are connected |
| NodeManagerServices.NodeManagerService.constructor | oresat_c3/services/node_manager.py:91-116 | nothing is known of any card, and the C3 is on |
| NodeManagerServices.NodeManagerService.OnStart | oresat_c3/services/node_manager.py:115-123 | starting switches the domain on |
| NodeManagerServices.NodeManagerService.GetNodeState | oresat_c3/services/node_manager.py:189-229 | the state decided (NodeManagerStates.LoopFinds), and the card's status brought up to date by deciding |
| NodeManagerServices.NodeManagerService.OnLoop | oresat_c3/services/node_manager.py:231-289 | one loop: both passes in order, and the branch for no card found never taken |
| NodeManagerServices.NodeManagerService.Enable | oresat_c3/services/node_manager.py:291-332 | a card that is off is switched on with its child |
| NodeManagerServices.NodeManagerService.Disable | oresat_c3/services/node_manager.py:334-359 | a card is switched off after its child |
| NodeManagerServices.NodeManagerService.ActOn | oresat_c3/services/node_manager.py:269-289 | one turn of the second pass |
| NodeManagerServices.NodeManagerService.SetNodeStatus | oresat_c3/services/node_manager.py:369-384 | which requests do what |
| NodeManagerStates.RequestActs | oresat_c3/services/node_manager.py:291-384 | what a request does to each card: its own and its child's, and when |
| NodeManagerStates.RequestNotes | oresat_c3/services/node_manager.py:332 | only a request that switches a card on notes the time |
| NodeManagerStates.RequestPowers | oresat_c3/services/node_manager.py:291-359 | a request that is met leaves a card that answers as asked: on, in the bootloader exactly if asked, or off |
| NodeManagerStates.UpdatingActs | oresat_c3/services/node_manager.py:143-155 | what beginning and ending an update changes |
| NodeManagerStates.OpdRequestActs | oresat_c3/services/node_manager.py:406-417 | what switching the domain by request does to each node |
| NodeManagerServices.NodeManagerService.SetNodeUpdating | oresat_c3/services/node_manager.py:143-155 | an update begins or ends |
| NodeManagerServices.NodeManagerService.SetOpdStatus | oresat_c3/services/node_manager.py:406-417 | switching the domain marks its nodes or restarts their timeouts, and does what the domain does |
| NodeManagerServices.NodeManagerService.KeepOff | oresat_c3/services/node_manager.py:281-282 | a dead card is switched off if it reads as on |

## Left out

- MAC (32 octets) and FECF (2 octets) are function parameters; their algorithms are not modelled, and neither is authenticity against an adversary.
- spacepackets: the frame layout is that of section 4.1.2 of CCSDS 732.1-B-2. Frames with construction rules below 3 (fixed length), a length field that does not match, a wrong version or a wrong checksum are taken to be rejected; a control word is four octets.
- Float arguments are their four octets and strings their UTF-8 octets, of which those received are taken to be valid; Python's interchange of `bool` and `int` in `struct.pack` is not modelled. Formats that begin with `=` take the host's byte order as a parameter.
- File-transfer payloads of a packet are opaque octets with a predicate that says which of them parse.
- FOP-1 and FARM-1, sequence-number bookkeeping, queues, threads and locks are not part of this model.
- Floats of the filter and the quaternions are reals; square roots are witnesses (`r >= 0` and `r * r == argument`), so rounding is not modelled.
- MekfTrig: sine, cosine and square root are parameters with sin^2 + cos^2 = 1, cos 0 = 1, squares of roots and 0 < pi < 180; where more is needed (double angles; sine and cosine agreeing exactly at whole turns) the lemma asks for it. A division by zero that only a step back in time could cause gives the identity.
- Mekf, MekfFilter: the semidefinite covariance claims hold for any transition matrix and any unit quaternions, so for those of MekfTrig; the definite ones of MekfDefinite are for the source's.
- MekfFilter.MEKF.Update: a call without a gyro rate or a measurement still propagates but does not move the time of the last step. The model does the same; the claims hold all the same.
- Si41xx: the RF1 and RF2 registers, the phase gain helper and reading the auxiliary pin. Delays are not modelled.
- Si41xxDividers.DividersExact: speaks of positive frequencies only; for negative ones the model follows Python's floor division but claims nothing.
- Overpass.TimeToOverpass: whether the spacecraft is in range at a second is an abstract predicate. The method is stated for the searches that return, which Overpass.ReturnsIffHalts characterises; on any other the source does not return.
- CacheStores: `OreSatFile` ordering is a rank on names and equality is equality of names; validity of a name is a predicate. Directory listing, sizes and locks are left out, as is a directory changed by another program.
- CacheStores.CacheStore.CalculateChecksum: stated for the calls that return, which CacheStores.CrcLoopReturnsIff characterises.
- Checksums: the CRC libraries are taken to resume from the earlier checksum they are given, and 0 to be the checksum of no octets.
- CfdpDest: of the library handler only what the overrides call is modelled: a cancellation completes the transfer with a Finished PDU in the same cycle and starts the wait afresh with counter 0; abandonment and the acknowledgement drop the transaction; suspension changes nothing here. The source handler is modelled only by the segments it sends.
- CfdpDest.FixedDestHandler.HandlePositiveAckProcedures: stated for the calls that come back, which CfdpDest.CycleReturnsIff characterises.
- PersistentState: objects are their encoded octets; `decode_raw` is taken to undo `encode_raw` on octets of the default's length. The real-time clock that a clear resets is left out.
- PersistentState.StateStore.constructor: an object listed twice is excluded.
- C3State: the wall clock and the monotonic clock are read once per loop, and the latter once more after a firing; a write to the state variable while a loop runs is not modelled. A raised loop leaves the state as it was, and the run goes on.
- Max7310s: register values are octets by type, so the error for a value outside a byte cannot arise. A chip answers or does not for a whole operation; failing between two accesses of one operation is not modelled.
- OpdNodes.Opd.constructor: the cards are given at once; adding them one by one is dictionary insertion.
- OpdNodes: `Opd.reset` is left out, since it acts only in state FAULT and nothing but itself sets that. The general purpose lines of the domain and of SPARE_8 are fields, current measurement and delays are left out.
- NodeManagers: one clock reading stands for those of a loop. A card carries the number of its resets, which the source does not keep, for the claims about runs.
- NodeManagerServices.NodeManagerService.constructor: assumes a configuration in which exactly the cards with an OPD address are on the domain, each child is one of them, and a card off the domain is a CANopen node, so that no lookup raises. A node's record is a value of the dictionary.
- NodeManagers: the JSON status, the node list by address and the counters of nodes by state are left out.
- Radios, payloads, beacons, the mission database, channel routing, node flashing, the clock chip, the AX.25 framing, ping statistics and the control law would add only device calls or easy members.
