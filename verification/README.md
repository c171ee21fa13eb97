# Verification of InitOS

A Dafny model of the parts of InitOS on which a verified boot rests, and proofs about it. `dafny verify
dfyconfig.toml` checks everything. Hashes, RSA, certificate parsing and the TPM's wrapping are
uninterpreted functions; the kernel, the TPM, the file system and the firmware are explicit state or
arbitrary answers.

- **TPM** (`TpmFrames`, `TpmBuilders`, `TpmDecoder`, `TpmWire`, `TpmTransport`, `TpmModel`, `TpmLockout`,
  `TpmClient`, `Sealing`, `FaultySealing`). The command builders fill byte buffers in place; an independent decoder of the TPM 2.0
  structures reads the frames back; `TpmWire` writes every frame out in literal bytes; an abstract TPM that decodes the actual bytes carries them
  out. Over it, sealing and unsealing are characterised exactly and composed into the round trip and
  the lock-out over whole histories of arbitrary byte strings. The retry loop is bounded against a
  device with any behaviour, and sealing is characterised again on a device that may fail at any write or
  read, with or without effect.
- **Signature database** (`SignatureDatabase`, `SignatureSearch`, `SharedTrust`, `LoaderBoot`). The
  loader's and the initrd's walks over the same EFI_SIGNATURE_LISTs (section 32.4.1 of UEFI 2.10), as the
  loops they are, compared on arbitrary bytes and on well-formed databases; the searches on top of
  them, compared exactly; and the loader's decision to hand over.
- **Boot entry** (`LoadOption`). Both extractors over EFI_LOAD_OPTION, their agreement on
  every payload, and the round trip from a serialiser.
- **Names and selection** (`Decimals`, `SignatureNames`, `DeviceNames`, `ImageSelection`).
- **Boot** (`BootTrace`, `Unlock`, `BootRun`, `BootLockout`, `PlainRootBoot`). A boot appends events to a trace; the machine answers
  as any function of the trace so far. `Lawful` says what must have happened before an event may, what has
  to follow it and at which stage of the boot it is due; every
  method is proved to append only lawful events, and what that means for a whole boot is stated by
  `BootRun.CmdBoot`. The slot is the one named by the boot entry that the machine hands over, and
  what the machine answers to unsealing is a result of `TpmClient.UnsealKey`, a reply that cannot be
  sliced included. `BootLockout` joins the boot to the abstract TPM; `PlainRootBoot` is a boot with Secure
  Boot on that ends in an unverified root.
- **Slot installation** (`SlotInstall`). The script's steps on a disk that may stop before each of
  them; `Attempted` lists the states an attempt can leave, and the properties of whole
  runs of attempts follow from it.
- **Firmware store** (`FirmwareStore`). Imports and fetches interleaved step by step, with the gap
  between the existence check and the move, of objects and of the tree a fetch publishes for its slot. Besides
  what every interleaving keeps, a writer that is not stopped finishes: imports import and fetches publish.
- **Module signatures** (`ModuleStrip`).

Where the code and its documentation disagree the model follows the code. docs/boot_sequence.md:46 and
143 say that an unreadable SecureBoot variable leads to development mode; src/boot.rs:659-671
fails instead, and `BootRun.CmdBoot` halts. The loader takes SecureBoot to be on when the byte is 1
(src/bin/efi.rs:568), the initrd when it is not 0 (src/boot.rs:668); the model keeps both. docs/boot_sequence.md:347-348
gives another order of init programs than src/boot.rs:414-447; which one is chosen is not modelled.

Some expected properties are false of the code. Each has a lemma at an input where it fails and its exact
condition: the agreement of the two walks (an empty X.509 list, an overrunning list), the agreement of the
two searches (a certificate whose algorithm identifier is not rsaEncryption), the agreement of the two
extractors (a short Hard Drive node), the recovery of a disk name, the order of partitions, stripping an
empty module, a published firmware tree that stays its revision (two fetches at once), a verified root (a
slot's plain root directory), a recoverable slot (the same slot on a second disk), a sealing that on
failure changes nothing (a device that fails after the eviction), and a boot that ends in its failure
policy whatever the TPM replies (a reply too short to slice ends the process).

## Model

| member | source | states |
|---|---|---|
| `TpmBuilders.Buffer.PutU16` | src/tpm2.rs:513-516 | writes the two big-endian bytes at the offset and advances it; what was written before is kept |
| `TpmBuilders.Buffer.PutU32` | src/tpm2.rs:518-521 | writes the four big-endian bytes at the offset and advances it; what was written before is kept |
| `TpmBuilders.Buffer.WriteHeader` | src/tpm2.rs:531-536 | the ten bytes of a TPM command header |
| `TpmBuilders.Buffer.WriteAuthArea` | src/tpm2.rs:502-511 | the size of the authorization area and an authorization with an empty nonce and password for the given session handle |
| `TpmBuilders.BuildStartup` | src/tpm2.rs:77-85 | the buffer is exactly the Startup frame: its length is the size in its header |
| `TpmBuilders.BuildStartAuthSession` | src/tpm2.rs:87-114 | the buffer is exactly the StartAuthSession frame, with its nonce, hash and session type |
| `TpmBuilders.BuildPolicyPcr` | src/tpm2.rs:130-149 | the buffer is exactly the PolicyPCR frame that selects PCR 7 of the SHA-256 bank |
| `TpmBuilders.BuildPolicyGetDigest` | src/tpm2.rs:151-169 | the buffer is exactly the PolicyGetDigest frame |
| `TpmBuilders.BuildFlushContext` | src/tpm2.rs:208-223 | the buffer is exactly the FlushContext frame |
| `TpmBuilders.BuildPcrExtend` | src/tpm2.rs:181-205 | the buffer is exactly the PCR_Extend frame for the PCR and digest |
| `TpmBuilders.BuildUnseal` | src/tpm2.rs:227-250 | the buffer is exactly the Unseal frame for the object, authorized by the policy session |
| `TpmBuilders.BuildDaLockReset` | src/tpm2.rs:325-339 | the buffer is exactly the DictionaryAttackLockReset frame |
| `TpmBuilders.BuildEvictControl` | src/tpm2.rs:294-313 | the buffer is exactly the EvictControl frame |
| `TpmBuilders.BuildCreatePrimary` | src/tpm2.rs:254-291 | the buffer is exactly the CreatePrimary frame, nested sizes included |
| `TpmBuilders.CreateBufferFits` | src/tpm2.rs:341-398 | the hand-computed size of the Create buffer is enough for its parts if and only if the data has at most 65531 bytes and the policy at most 65521 |
| `TpmBuilders.BuildCreate` | src/tpm2.rs:341-398 | for all data and policies that fit, the buffer is filled exactly by the Create frame, with every nested TPM2B size consistent |
| `TpmBuilders.BuildLoad` | src/tpm2.rs:400-421 | the buffer is exactly the Load frame around the two blobs |
| `TpmDecoder.ReadsStartup` | src/tpm2.rs:77-85 | an independent decoder reads the frame as Startup |
| `TpmDecoder.ReadsStartAuthSession` | src/tpm2.rs:87-114 | an independent decoder recovers the session type |
| `TpmDecoder.ReadsPolicyPcr` | src/tpm2.rs:130-149 | an independent decoder recovers the session and the selection of PCR 7 alone |
| `TpmDecoder.ReadsPolicyGetDigest` | src/tpm2.rs:151-169 | an independent decoder recovers the session |
| `TpmDecoder.ReadsFlushContext` | src/tpm2.rs:208-223 | an independent decoder recovers the handle |
| `TpmDecoder.ReadsPcrExtend` | src/tpm2.rs:181-205 | an independent decoder recovers the PCR and the digest |
| `TpmDecoder.ReadsUnseal` | src/tpm2.rs:227-250 | an independent decoder recovers the object and the session |
| `TpmDecoder.ReadsDaLockReset` | src/tpm2.rs:465-475 | an independent decoder reads the frame as a lockout reset |
| `TpmDecoder.ReadsEvictControl` | src/tpm2.rs:294-313 | an independent decoder recovers the object and the persistent handle |
| `TpmDecoder.ReadsCreatePrimary` | src/tpm2.rs:254-291 | an independent decoder recovers the storage key template |
| `TpmDecoder.ReadsCreate` | src/tpm2.rs:341-398 | an independent decoder recovers parent, data and policy digest of any Create that fits |
| `TpmDecoder.ReadsLoad` | src/tpm2.rs:400-421 | an independent decoder recovers the parent and both blobs |
| `TpmWire.StartupOnWire` | src/tpm2.rs:77-85 | the frame in literal bytes |
| `TpmWire.StartAuthSessionOnWire` | src/tpm2.rs:87-114 | the frame in literal bytes around the session type |
| `TpmWire.PolicySessionType` | src/tpm2.rs:116-121 | policy sessions are of type 1 |
| `TpmWire.PolicyPcrOnWire` | src/tpm2.rs:130-149 | the frame in literal bytes around the session |
| `TpmWire.PolicyGetDigestOnWire` | src/tpm2.rs:151-165 | the frame in literal bytes around the session |
| `TpmWire.FlushContextOnWire` | src/tpm2.rs:208-223 | the frame in literal bytes around the handle |
| `TpmWire.PcrExtendOnWire` | src/tpm2.rs:181-205 | the frame in literal bytes around PCR and digest |
| `TpmWire.UnsealOnWire` | src/tpm2.rs:227-243 | the frame in literal bytes around object and session |
| `TpmWire.DaLockResetOnWire` | src/tpm2.rs:465-471 | the frame in literal bytes |
| `TpmWire.EvictControlOnWire` | src/tpm2.rs:294-313 | the frame in literal bytes around object and handle |
| `TpmWire.PrimaryTemplateOnWire` | src/tpm2.rs:274-285 | the 26 bytes of the storage key template |
| `TpmWire.CreatePrimaryOnWire` | src/tpm2.rs:254-291 | the frame in literal bytes around the template |
| `TpmWire.SensitiveAreaOnWire` | src/tpm2.rs:341-398 | the sensitive area in literal bytes around the data |
| `TpmWire.SealedPublicOnWire` | src/tpm2.rs:341-398 | the public area of a sealed object in literal bytes around the policy |
| `TpmWire.CreateOnWire` | src/tpm2.rs:341-398 | the frame in literal bytes around parent, sensitive and public area |
| `TpmWire.LoadOnWire` | src/tpm2.rs:400-421 | the frame in literal bytes around parent and both blobs |
| `TpmWire.HandlesAndMarks` | src/tpm2.rs:53-56 | the persistent handles and the marks of both modes, in literal values |
| `TpmWire.RetryCodes` | src/tpm2.rs:425-430 | a reply asks for a retry, or tells of a lockout, if and only if its code has these bytes |
| `TpmWire.AttemptLimit` | src/tpm2.rs:431-458 | 1 to 21 attempts, and exactly 21 before a request to retry is passed on |
| `TpmWire.ReplyLimit` | src/tpm2.rs:442-444 | a reply is cut at 4096 bytes |
| `TpmWire.ResetOnWire` | src/tpm2.rs:465-475 | a lockout reset writes exactly that frame, on any device, and reads once |
| `TpmTransport.ExchangeBounded` | src/tpm2.rs:436-463 | against any device: at most 21 attempts, each but the last answered by a retry code, the result is that of the last, and a retry code is returned only after the 21st |
| `TpmTransport.ExchangePaired` | src/tpm2.rs:436-475 | against any device the command is written 1 to 21 times and every write, lockout resets included, is paired with one read unless the last write failed |
| `TpmTransport.Device.DaLockResetRaw` | src/tpm2.rs:465-475 | one write and one read, both outcomes ignored |
| `TpmTransport.Device.Transact` | src/tpm2.rs:436-463 | the loop computes that exchange, so its trailing unreachable statement is not reached; the command goes out at most 21 times, and without an I/O error the device is read as often as it is written |
| `TpmLockout.RunKeepsValid` | src/tpm2.rs:130-148 | over any byte strings sent, every policy session of the TPM that is current asserts the PCR 7 of now |
| `TpmLockout.RunGrowsPcr7` | src/tpm2.rs:181-205 | within a boot the history of PCR 7 only grows |
| `TpmLockout.LockedOut` | src/boot.rs:502-515 | once PCR 7 is past the history an object was sealed to, no byte string sent later in that boot unseals it |
| `TpmLockout.ExtendLocks` | src/tpm2.rs:181-205 | the frame of pcr_extend succeeds and puts PCR 7 past every earlier history |
| `TpmClient.Transceive` | src/tpm2.rs:477-488 | a command, its retries and the check of the response code |
| `TpmClient.StartPolicySession` | src/tpm2.rs:116-121 | starts a policy session and slices its handle out of the reply |
| `TpmClient.ApplyPolicyPcr` | src/tpm2.rs:130-149 | sends PolicyPCR for the session |
| `TpmClient.GetPolicyDigest` | src/tpm2.rs:151-169 | slices the policy digest out of the reply |
| `TpmClient.Flush` | src/tpm2.rs:208-223 | flushes a context |
| `TpmClient.ExtendPcr` | src/tpm2.rs:181-205 | extends a PCR |
| `TpmClient.Unseal` | src/tpm2.rs:227-250 | slices the secret out of the reply |
| `TpmClient.Create` | src/tpm2.rs:341-398 | slices the private and public blob, sizes included, out of the reply |
| `TpmClient.Load` | src/tpm2.rs:400-421 | slices the handle out of the reply |
| `TpmClient.EvictControl` | src/tpm2.rs:294-313 | persists or evicts an object |
| `TpmClient.TryEvictPersistent` | src/tpm2.rs:315-322 | evicts, and resets the lockout if that fails |
| `TpmClient.OpenPolicySession` | src/boot.rs:40-48 | a session bound to PCR 7 and its digest, shared by sealing and unsealing |
| `TpmClient.SealSecret` | src/main.rs:411-457 | cmd_seal as the composition of its steps over any device, with every early error exit |
| `TpmClient.UnsealKeyFromHandle` | src/boot.rs:35-58 | unseal_key_from_handle as the composition of its steps over any device |
| `Sealing.StripExact` | src/boot.rs:624-633 | stripping succeeds if and only if the prefix is there, and gives the rest |
| `Sealing.UnsealKeyExact` | src/boot.rs:35-58 | unsealing succeeds if and only if the object is sealed to the PCR 7 of now and starts with the mode's prefix; it returns the rest and changes no object and no PCR |
| `Sealing.SealExact` | src/main.rs:411-457 | on a device that does not fail: sealing succeeds if and only if three stated conditions hold; then exactly one persistent object changes, and on failure none does; no session is left open |
| `FaultySealing.FaultyBehaves` | src/tpm2.rs:436-463 | on a device that may fail at any write or read, each command is carried out and reported as on a sound one, or is an error with or without effect |
| `FaultySealing.SealUnderFaults` | src/main.rs:411-457 | on that device, for every pattern of failures: sealing succeeds if and only if the three conditions hold, nothing fails before the eviction or at the last command, and the eviction of an old object reached the TPM; what is left is exactly as before, without the old object, or with the new one |
| `FaultySealing.FailedSealLeaves` | src/main.rs:447-450 | after an error the persistent objects are as before, or hold the new one whose report was lost, or lack exactly the one at the handle, the last if and only if its eviction was carried out and the command after it was not |
| `FaultySealing.FailedSealLosesSecret` | src/main.rs:447-450 | one write that fails after the eviction: from any TPM on which the sealing would have replaced an object, it is an error and nothing is left to unseal at the handle in either mode |
| `Sealing.SealUnsealRoundTrip` | src/boot.rs:18-58 | a sealed secret comes back exactly, in its mode, after any commands, reopens and reboots that leave PCR 7 and the handle alone; in the other mode it is an error |
| `Sealing.OtherHistoryRefused` | src/boot.rs:35-58 | an object sealed to one history of PCR 7 is refused under every other |
| `Sealing.SealedThenLocked` | src/boot.rs:494-518 | sealed, then extended later in the same boot: whatever else is sent, the program cannot get the secret back before a reboot |
| `SignatureDatabase.WalksAgree` | src/efi.rs:384-441 | on arbitrary bytes the loader visits a prefix of what parse_esl visits, and the two agree if and only if the loader does not stop at an empty X.509 list or at a list that overruns the database (an overrunning X.509 list with a bad layout is malformed to both) |
| `SignatureDatabase.EmptyX509ListParts` | src/bin/efi.rs:435-437 | an X.509 list of size zero: the loader stops there, parse_esl reports an error |
| `SignatureDatabase.OverrunningListParts` | src/bin/efi.rs:438-444 | a list of another type that overruns the database: the loader reports an error, parse_esl passes over it |
| `SignatureDatabase.WalksVisitCertificates` | src/bin/efi.rs:426-519 | on every concatenation of well-formed lists, of any types and header sizes, both walks visit exactly the X.509 entries in order |
| `SignatureDatabase.X509GuidFields` | src/efi.rs:47-50 | the type that both walks look for is a5c059a1-94e4-4aa7-87b5-ab155c2bf072 |
| `SignatureSearch.CheckEntry` | src/bin/efi.rs:464-515 | one entry is judged and the counters keep meaning what has been seen |
| `SignatureSearch.SearchList` | src/bin/efi.rs:462-517 | a match is reported if and only if some entry of the list matches |
| `SignatureSearch.LoaderLook` | src/bin/efi.rs:427-460 | what the loader's checks make of the list at an offset: the end, malformed, to be passed over, or its certificate area |
| `SignatureSearch.VerifyDataSignature` | src/bin/efi.rs:410-539 | accepted if and only if some visited RSA entry has a loadable signature file that verifies; each refusal exactly when its reason holds |
| `SignatureSearch.ParseList` | src/efi.rs:419-435 | the certificates of a list that parse, in order |
| `SignatureSearch.EslLook` | src/efi.rs:389-417 | what parse_esl's checks make of the list at an offset |
| `SignatureSearch.OpinionMeans` | src/verify.rs:129-172 | a certificate vouches if and only if the file that the signer writes for its key verifies with it, and fails the check if and only if that file is unreadable |
| `SignatureSearch.ParseEsl` | src/efi.rs:384-441 | an error if and only if the walk meets a bad X.509 list, else exactly the visited certificates that parse |
| `SignatureSearch.AskCertificates` | src/verify.rs:129-172 | the first certificate that does not pass decides, for acceptance and for an error |
| `SignatureSearch.VerifyImageDb` | src/verify.rs:121-172 | true if and only if some certificate vouches for the digest with no unreadable signature file before it; an error if and only if the database is malformed or an unreadable file comes first |
| `SharedTrust.TrustCompared` | src/verify.rs:129-172 | asked about the same bytes with the same signature files, an empty string being no RSA key: the initrd accepts if and only if the loader matches or some entry has an algorithm identifier other than rsaEncryption and an RSA key that made the signature, and no unreadable signature file comes first |
| `SharedTrust.TrustComparedOn` | src/bin/efi.rs:426-519 | the same on every database on which the walks agree, if the walk finishes |
| `SharedTrust.TrustComparedWellFormed` | src/efi.rs:384-441 | the same on every well-formed database, where both range over exactly its certificates |
| `SharedTrust.OtherAlgorithmParts` | src/bin/efi.rs:498-512 | a certificate with another algorithm identifier that the initrd trusts and the loader does not |
| `LoaderBoot.Boot` | src/bin/efi.rs:541-675 | a handover if and only if there are a configuration and a kernel and, with Secure Boot on, a non-empty database of which a visited RSA certificate signed the configuration in KEY.sig, the kernel in KEY.kernel.sig and any initrd in KEY.initrd.sig; what is handed over is what was verified |
| `LoaderBoot.Check` | src/bin/efi.rs:608-660 | a part of the boot passes if and only if a certificate signed it under the file name of that part |
| `LoaderBoot.LoaderLooksWhereSigned` | sidecar/bin/sign.sh:927-937 | the loader looks for each of the three signatures where the signing script writes it |
| `LoadOption.LocateDevicePath` | src/efi.rs:148-195 | the description is skipped to its terminator and the device path lies within the payload, or the exact error |
| `LoadOption.ExtractBootPartitionId` | src/efi.rs:128-227 | the number of the first full Hard Drive node, on every payload |
| `LoadOption.ExtractBootDeviceInfo` | src/efi.rs:232-368 | the number and identity of the first Hard Drive node, or an index panic, on every payload |
| `LoadOption.ExtractorsAgree` | src/efi.rs:252-368 | on every payload the two extractors agree if and only if the first Hard Drive node is full or absent or a short one repeats the number of the next full one |
| `LoadOption.ShortNodeParts` | src/efi.rs:211-221 | an eight-byte Hard Drive node on which they differ |
| `LoadOption.BareNodePanics` | src/efi.rs:315-325 | a four-byte Hard Drive node at the end of the path, on which the second extractor panics |
| `LoadOption.RoundTrip` | src/efi.rs:148-227 | any serialised boot entry, with any NUL-free description, nodes and trailing data, is read back as its first Hard Drive node |
| `SignatureNames.SignaturePathAppends` | src/verify.rs:207-213 | for every file name the signature name is the name, a dot and the suffix |
| `SignatureNames.SignerAgrees` | sidecar/bin/sign.sh:246-260 | the initrd looks where the signer writes |
| `SignatureNames.SigningEntries` | src/boot.rs:1041-1062 | exactly name.sig and name.*.sig make an image count as signed |
| `SignatureNames.AcceptableLooksSigned` | src/boot.rs:1041-1062 | every file that the database check could accept makes the image count as signed |
| `DeviceNames.ParentDiskInverts` | src/mount.rs:166-180 | the disk is recovered from the updater's partition name if and only if its name is not empty and does not end in a digit and p |
| `DeviceNames.DigitPLosesDisk` | src/mount.rs:168-171 | a disk called x1p is not recovered |
| `DeviceNames.SortsByNumber` | src/mount.rs:255-278 | of two partitions the larger number sorts later if and only if its concatenated digits fit in 32 bits |
| `DeviceNames.NextPartitionSortsFirst` | src/mount.rs:263-276 | on a disk called md42949672 partition 95 has the largest key and partition 96 sorts before it |
| `DeviceNames.ListingSorted` | src/mount.rs:236-281 | a listing sorted by that key is sorted by partition number when all keys fit |
| `ImageSelection.ScanMeans` | src/boot.rs:1033-1080 | a scan chooses the first signed slot image, refuses if and only if verified and an unsigned one comes before it, else finds none |
| `ImageSelection.HostImageMeans` | src/boot.rs:1082-1109 | the first signed copy of the slot booted from or, when it has none, the first common copy that exists, with the candidates written out in order; none only if neither exists, refused only if an unsigned copy comes first |
| `ImageSelection.SignedImageMeans` | src/boot.rs:1040-1062 | an image counts as signed if and only if it exists and name.sig or some name.*.sig lies beside it |
| `ImageSelection.VerifiedRefinesDevelopment` | src/boot.rs:1082-1109 | verified mode refuses exactly then, and otherwise picks what development mode picks |
| `ImageSelection.VerifiedRootRefinesDevelopment` | src/boot.rs:369-387 | the same of the root image |
| `ImageSelection.RootImageMeans` | src/boot.rs:368-389 | which root image is chosen, exactly: the slot's signed copy below initos, else the one beside the image, else the image itself; refused if and only if verified and an unsigned copy comes first |
| `ImageSelection.SlotPathsDistinct` | src/boot.rs:1027-1031 | slot paths of different images or partition numbers never coincide |
| `ImageSelection.NeverAnotherSlot` | src/boot.rs:1082-1109 | a machine started from one slot never picks another slot's copy |
| `Unlock.ExpandKey` | src/boot.rs:571-574 | the 64-byte key repeats the secret cyclically |
| `Unlock.AddKey` | src/boot.rs:563-581 | an empty secret is refused, any other is installed expanded |
| `Unlock.LookForSentinel` | src/boot.rs:490-492 | the observation of the unlocked home directory |
| `Unlock.TrySecret` | src/boot.rs:538-544 | succeeds if and only if the sentinel appears |
| `Unlock.UnlockWithTpm` | src/boot.rs:494-518 | dies if and only if the TPM's reply cannot be sliced; succeeds if and only if the state is unlocked, without prompts, and then ends by extending PCR 7; the secret unsealed is tried, so a machine that it opens is unlocked |
| `Unlock.SecretFor` | src/boot.rs:532-536 | the secret is the password itself, or what it decrypts from the key file when there is one |
| `Unlock.UnlockWithPassword` | src/boot.rs:520-561 | succeeds if and only if the state is unlocked; gives up only after three prompts or an unreadable one; if one of the first three passwords is or decrypts the secret that opens the state, it is unlocked |
| `Unlock.SomePasswordOpens` | src/boot.rs:520-561 | any machine without its TPM, on which a password is typed and opens the state, meets the condition under which a password unlocks |
| `Unlock.UnlockLocked` | src/boot.rs:479-487 | the TPM is asked first whenever there is one, and its reply decides whether the process dies; success if and only if the state is unlocked, which it is if the TPM opens it, or if the TPM gives an error and a password opens it |
| `Unlock.UnlockStateC` | src/boot.rs:458-488 | succeeds if and only if c is absent, or unlocked and in verified mode seen locked before; dies only at a reply of the TPM that cannot be sliced; succeeds on every machine whose state needs no unlocking or is opened by the TPM or a password |
| `BootRun.VerifyImageTrusted` | src/boot.rs:1146-1168 | verified mode asks the database about exactly this image; development mode accepts |
| `BootTrace.VouchedMeans` | src/verify.rs:121-172 | what it means that the database vouches: it can be walked to its end and one of its certificates verifies the digest with the file NAME.KEY.db.sig beside the image, with no unreadable such file before |
| `BootRun.MountImage` | src/boot.rs:393-394 | an image is loop mounted only as the laws of a run allow |
| `BootRun.RootInsideC` | src/boot.rs:331-355 | the root directory chosen lies inside the encrypted directory c if and only if it is not the slot's plain one |
| `BootRun.RootDirectoryMeans` | src/boot.rs:331-355 | which root directory is chosen, with the three paths written out |
| `BootRun.BootPaths` | src/boot.rs:732-775 | the paths of firmware, objects, modules and mounts, written out |
| `BootRun.PlainRootIsBound` | src/boot.rs:339-346 | a file system whose plain root directory is bound |
| `BootRun.MountRootfs` | src/boot.rs:321-397 | on success the first existing root directory is bound, or else the selected image is mounted; in verified mode that root is inside c or vouched for if and only if the slot's plain root directory is not the one chosen; it succeeds whenever the mounts do and there is a root directory or an image in order |
| `BootRun.MountSlotFirmware` | src/boot.rs:732-786 | on success the slot's own firmware image and objects were found and the image is mounted and overlaid; in development it fails only if something was missing or a mount failed |
| `BootRun.MountFirmware` | src/boot.rs:689-715 | the development tree is a fallback outside verified mode only, used only when it exists and the slot's firmware was missing or failed |
| `BootRun.MountHostImage` | src/boot.rs:989-1025 | on success exactly the selected image is mounted, or none exists; it succeeds whenever the mounts do and the image is absent or in order |
| `BootRun.MountModules` | src/boot.rs:717-729 | on success the kernel is known and the image found for it right after the firmware was mounted is mounted at its place, if there is one, and then the host images are bound |
| `BootRun.MountHostImages` | src/boot.rs:673-730 | on success the boot partition is known, firmware comes from that slot and the modules of the kernel are in place |
| `BootRun.MountAll` | src/boot.rs:164-177 | root, state, firmware, modules and the rest in this order; on success all of the slot's are in place; a machine that serves the slot gets there |
| `BootRun.SwitchRoot` | src/boot.rs:179-184 | succeeds if and only if root is switched |
| `BootRun.ReadBootEntry` | src/boot.rs:96-116 | the slot is the partition of the boot entry's first Hard Drive node; an entry that cannot be indexed panics |
| `BootRun.ReadMode` | src/boot.rs:92-93 | the mode is what the SecureBoot variable says, none if it cannot be read |
| `BootRun.Boot` | src/boot.rs:68-186 | succeeds if and only if root is switched, with the firmware, the root and the modules of the slot the boot entry names, and on every machine that serves that slot; dies at a boot entry that cannot be indexed, and otherwise only at a reply of the TPM that cannot be sliced; the mode is what SecureBoot says, none if unreadable |
| `BootRun.CmdBoot` | src/boot.rs:62-219 | over the whole trace of any boot: with Secure Boot on every image mounted was vouched for before, and the root switched to is inside c or vouched for if and only if it is not the slot's plain root directory; a running system has the firmware of its slot and the modules found for a known kernel, or none existed; development firmware and initrd only with SecureBoot zero; at most three prompts and none once unlocked; every secret recovered is tried at once; every key installed repeats what the TPM unsealed in this mode, what was typed or what that decrypted; PCR 7 extended only right after a key from the TPM unlocked the state, and then at once; every step in its turn and reported as the machine did it, and root switched to the machine's init only with state, root and firmware ready and the five other steps done. Which of the four outcomes it has, exactly: running, dead if and only if the boot entry cannot be indexed or the boot asked the TPM and could not slice its answer, the development initrd, or halted; running on every machine that serves the slot, with locked state or not |
| `BootLockout.LockedAfterBoot` | src/boot.rs:494-518 | on a machine whose answers come from the abstract TPM: in every boot that extended PCR 7, whatever is sent later and wherever the unsealed object is kept, the program does not get its secret back |
| `BootLockout.BootUnsealsWhatWasSealed` | src/boot.rs:17-58 | a secret sealed in the mode of the boot under that mode's handle is what the boot is given, after anything that leaves PCR 7 and the handle alone |
| `BootLockout.ShortReplyPanics` | src/tpm2.rs:110-113 | a device that answers with bare headers of success: unsealing slices beyond the reply, which ends the process |
| `PlainRootBoot.RunPlainRoot` | src/boot.rs:339-346 | with Secure Boot on, every machine that serves the boot and offers the slot a plain root directory ends up running with an untrusted root |
| `PlainRootBoot.PlainMachineServes` | src/boot.rs:321-397 | for every slot, kernel and root name there is such a machine, with firmware that the database vouches for |
| `PlainRootBoot.SecureBootRunsPlainRoot` | src/boot.rs:62-219 | and the boot of that machine, to the end |
| `SlotInstall.Machine.RemoveTree` | sidecar/bin/initos-upgrade:413 | interrupted anywhere it leaves part of the directory, else none of it |
| `SlotInstall.Machine.Extract` | sidecar/bin/initos-upgrade:379 | interrupted anywhere it touches only the stage, else the stage is the payload |
| `SlotInstall.Machine.WriteImage` | sidecar/bin/initos-upgrade:410-411 | interrupted anywhere the partition is a prefix of the image followed by its old content |
| `SlotInstall.Machine.Swap` | sidecar/bin/initos-upgrade:403-406 | the two renames, with the state after each |
| `SlotInstall.Machine.Commit` | sidecar/bin/initos-upgrade:410-413 | the backup is touched only after the whole boot image is on the partition |
| `SlotInstall.Machine.Prepare` | sidecar/bin/initos-upgrade:376-402 | only the stage changes; ready only with a complete payload and no backup |
| `SlotInstall.Machine.Install` | sidecar/bin/initos-upgrade:341-416 | wherever it stops, one of four stated states; done only for slot 101 or 102 and when all is in place; refused leaves the slot as it was; allowed requests fail only by a crash or a full partition, and are done within a stated number of steps; no stage is left behind unless the machine stops |
| `SlotInstall.WrittenMeans` | sidecar/bin/initos-upgrade:379-411 | what a finished install has put in place: every file as its archive has it last, the four files a slot needs, and the boot image on the partition of the disk asked for |
| `SlotInstall.BackupIsKept` | sidecar/bin/initos-upgrade:398-402 | while a backup exists no run of attempts changes the slot, on any disk |
| `SlotInstall.OtherSlotIsKept` | sidecar/bin/initos-upgrade:341-416 | no run of attempts on one slot changes the other |
| `SlotInstall.PayloadSurvives` | sidecar/bin/initos-upgrade:403-413 | over every run of interrupted attempts a payload survives, in place or as backup, until an attempt has written a whole boot image and changed the slot |
| `SlotInstall.RecoverableStep` | sidecar/bin/initos-upgrade:403-413 | after an attempt, interrupted anywhere or not, a recoverable partition is so if and only if the attempt did not write a whole image of the same slot to another disk, or the partition holds the new image too, or the backup is still complete |
| `SlotInstall.AlwaysRecoverable` | sidecar/bin/initos-upgrade:403-413 | at every moment of every run that installs the slot on no other disk, the slot's directory matches the partition or there is a complete backup |
| `SlotInstall.InstallElsewhere` | sidecar/bin/initos-upgrade:341-416 | a slot installed on one disk and then to the end on another: the first disk's partition stays recoverable if and only if it already holds the new image |
| `SlotInstall.SecondDiskLosesFirst` | sidecar/bin/initos-upgrade:341-347 | an install that runs to its end on a second disk leaves the first without its directory and without a backup |
| `FirmwareStore.OciKeeps` | sidecar/bin/initos-firmware-oci:172-191 | each step of an import keeps the store's invariant, what is stored, and that every object the import is past is genuine and in the store |
| `FirmwareStore.GitKeeps` | sidecar/bin/initos-upgrade:270-311 | each step of a fetch, the check and the move of its tree included, keeps the store's invariant and what is stored |
| `FirmwareStore.ImportImports` | sidecar/bin/initos-firmware-oci:172-191 | over every interleaving, an import that is not stopped has each of its first k objects, if these are genuine, in the store under its digest after two turns for each |
| `FirmwareStore.PassedIsImported` | sidecar/bin/initos-firmware-oci:172-191 | in every run, what an import is past is genuine and in the store, so a finished one has imported all and one with a bad object never gets past it |
| `FirmwareStore.FetchPublishes` | sidecar/bin/initos-upgrade:270-308 | over every interleaving, a fetch of an acceptable revision that is not stopped publishes its tree within two turns for each item and two more, with every regular file's object in the store |
| `FirmwareStore.UnsafeIff` | sidecar/bin/initos-upgrade:279-281 | a path is refused if and only if one of its components is . or .. |
| `FirmwareStore.ObjectPathNames` | sidecar/bin/initos-upgrade:292-294 | a fetched object lies under the first two digits of its digest, named by the rest |
| `FirmwareStore.StoreKept` | sidecar/bin/initos-firmware-oci:154-191 | over every interleaving of imports and fetches, stopped anywhere: names are digests, nothing disappears or changes its digest, published trees keep every path and are their revision or their revision with a copy of itself inside |
| `FirmwareStore.TreesHaveRevisions` | sidecar/bin/initos-upgrade:270-308 | every published tree has every path of its revision and leads to exactly the Git blobs, unless the digest collides |
| `FirmwareStore.TreeIsRevisionIff` | sidecar/bin/initos-upgrade:304-308 | over every run, a published tree has exactly the paths of its revision if and only if no second fetch of that slot and revision, past its check, moved its tree into it |
| `FirmwareStore.TreeStaysIff` | sidecar/bin/initos-upgrade:304-308 | a published tree stays as it is, whatever follows, if and only if no fetch of that slot and revision is between its check and its move, or the tree takes no other |
| `FirmwareStore.TwoFetchesNest` | sidecar/bin/initos-upgrade:304-308 | the interleaving of two fetches after which one tree lies inside the other |
| `FirmwareStore.ObjectsNeverChange` | sidecar/bin/initos-firmware-oci:179-189 | an object's content changes only if the digest collides, although a move may replace a file |
| `ModuleStrip.ModuleFile.Strip` | sidecar/bin/sign.sh:310-332 | the loop ends and leaves what the specification leaves, truncated also when it fails |
| `ModuleStrip.MarkerBytes` | sidecar/bin/sign.sh:312-313 | the marker byte by byte |
| `ModuleStrip.StripUndoesSigning` | sidecar/bin/sign.sh:310-332 | stripping a signed module gives what stripping the module gives, if and only if the module is not empty |
| `ModuleStrip.EmptyModuleFails` | sidecar/bin/sign.sh:326-329 | a signature on an empty module is taken for an invalid trailer |
| `ModuleStrip.StripUndoesStack` | sidecar/bin/sign.sh:310-332 | any stack of signatures is removed |
| `ModuleStrip.OnlyTrailersRemoved` | sidecar/bin/sign.sh:319-330 | each step removes exactly one valid trailer |
| `ModuleStrip.StripSound` | sidecar/bin/sign.sh:310-332 | success leaves no signature and is idempotent, the file was that module under a stack of signatures, and failure means a trailer at least as long as its file |

## Left out

- TpmModel: only the twelve commands the program sends are carried out, every other byte string is refused; reply fields that the program does not read are abbreviated; the space for persistent objects and the counter of PCR changes are unbounded.
- TpmModel: the resource manager is modelled by flushing sessions and transient objects when the device is reopened; other clients appear only as the byte strings they send.
- FaultySealing.SealUnderFaults: a failing device answers with an error and not with wrong bytes; a reply that was not read is gone before the next command; messages on the console always succeed.
- TpmTransport.Device.Transact: does not model the delay between retries, because nothing depends on time.
- The hypothesis `Separates` of the lock-out says that the policy digest of one history of PCR 7 is not shared by another; `WrapsSoundly` says that unwrapping undoes wrapping. `TpmLockout.HypothesesCanBeMet` gives a chip that meets both.
- Certificates: both stages share one parsing function, and a certificate's key identifier, key type and key bytes are what it returns; base64 encoding and decoding of the key in the initrd is the identity.
- LoaderBoot.Boot: file loading, the PE header and the jump into the kernel are not modelled; the command line is an arbitrary function of the configuration.
- measure_or_enable_verity: the digest of an image is an answer of the machine.
- Ed25519 verification and explicit public keys, because the boot never passes one.
- LoadOption.RoundTrip: of a Hard Drive node shorter than eight bytes the second extractor reads what follows it; only `LoadOption.ExtractorsAgree` and the method's contract cover that.
- SignatureNames.SignaturePathAppends: file names are valid UTF-8.
- DeviceNames.ListingSorted: the sort itself is the standard library's.
- find_boot_disk, find_data_device, select_init and the pseudo file systems: single searches or mounts whose outcome is an answer of the machine.
- BootTrace: paths are valid UTF-8; the settings taken from the environment are parameters.
- Unlock.SecretFor: age decryption is an answer of the machine.
- FirmwareStore.TreeStaysIff: empty directories are not modelled; installing a slot replaces its directory together with its trees, and that is not an action of this model; the `current` link and the record of the source are left out.
- SlotInstall.Machine.Install: a step that has returned is on the disk, so reordering of writes between the renames and the sync is not modelled; a crash within one rename or one block is before or after it; the checks of checksums, signature and missing objects are fields of the request.
- FirmwareStore.StoreKept: the two scripts are modelled as a state machine on values and not as loops, because their interleaving is the point; moving an object in and, for a fetch, linking it are one step; the final missing-objects check appears as a stop.
- The OCI baseline, delta and ratio commands, publishing, downloading, NixOS activation and efibootmgr: external tools.
- parse_tpm_handle, partition_guid_uuid, pe_size_of_image and argument parsing: would only add easy members.
