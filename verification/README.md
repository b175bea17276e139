# Splasher settings store, modelled in Dafny

Splasher keeps its configuration in one JSON file, `~/.config/splasher/settings.json`. The file holds a flat object from keys to values. Three operations use it. In the current package one process-wide `QReadWriteLock` guards all three; the older one locks only in `set_settings_arg`:

- `get_settings_arg(key)` returns `(found, value)`. In the current package every failure gives `(False, "")`; the older one lets a decode error escape.
- `set_settings_arg(key, value)` replaces the value of a key that is already there. It never adds a key. The current package writes through a `QSaveFile` staging file, which it commits or cancels.
- `create_settings()` writes the default template once. It does nothing if the file already exists.

Two revisions are modelled: the current package (`splasher/config/settings/`) and the older one (`src/config/settings/`). In the older one, a key missing from a non-empty document still reports success, a falsy value reads as "not found", and writes go straight into the file.

## How the file is modelled

- `FileState` is `Missing | Corrupt | Doc(map<string, Json>)`. `Corrupt` is a file whose text is empty or not valid JSON. `Json` is a tagged value: null, bool, int, float, string, array or object.
- Every operation is a pure function from the file state, its arguments and the environment's answers to its I/O. It returns a `Call`: the value handed back, the file state afterwards, and the sequence of lock calls made.
- Each Qt open is a boolean input. `OpensExisting` never succeeds on a missing file. `OpensNew` never succeeds on an existing one.
- Two more boolean inputs cover writes. For the staging file, the commit either goes through or not. A write error while streaming makes `QSaveFile` refuse the commit, so it counts as a failed commit. A write into the file itself can be interrupted, which leaves it `Corrupt`.
- Exceptions that escape to the caller are an `Outcome`. A `JSONDecodeError` escapes from the older code. A `SystemExit` escapes from the current `create_settings`.
- The lock is modelled as a trace of `LockForRead`, `LockForWrite` and `Unlock` calls. `Balanced` says each acquisition is released by the next call.
- `SettingsStore.Run` runs any sequence of gets, sets and creates. The store-wide invariants are proved over it by induction.

`write_settings` returns `True` as soon as the staging file opens and ignores what `commit()` returns (`splasher/config/settings/settings_arg_setter.py:71-78`). A set can therefore report success while the file keeps its old document, and the next get still returns the old value (`SuccessReportedWithoutCommit`).

Two further behaviours of the older revision come out of the model. A key missing from a non-empty document, read with a successful open, makes the older `set_settings_arg` return `True` (`LegacySetSettingsArg`); on `{}` or a failed open it returns `False`. A corrupt file makes its `read_settings` raise before `lock.unlock()`, so the read lock stays held (`CorruptFileLeaksReadLock`).

## Model

| member | source | states |
|---|---|---|
| SettingsArgGetter.GetSettingsArg | splasher/config/settings/settings_arg_getter.py:11-36 | Found exactly when the file opens, parses and holds the key, and then the value is the document's. Every failure returns `""`. The file is unchanged, and the read lock is taken once and released. |
| SettingsArgGetter.MissingFileReadsBlank | splasher/config/settings/settings_arg_getter.py:18-32 | A missing file reads as `(false, "")` and is not created, because the open uses `ExistingOnly`. |
| SettingsArgGetter.RepeatedGetsAgree | splasher/config/settings/settings_arg_getter.py:21-34 | A get leaves the file as it found it, so a repeated get gives the same answer. |
| SettingsArgSetter.ReadSettings | splasher/config/settings/settings_arg_setter.py:36-58 | Returns the whole document exactly when the file opens and parses. Returns `None` on an open failure or a decode error. The read lock is taken once and released, and the file is unchanged. |
| SettingsArgSetter.WriteSettings | splasher/config/settings/settings_arg_setter.py:61-80 | Returns true exactly when the staging file opens. The target holds either its old content or the whole new document, never a partial one. A cancelled write or a failed commit leaves it untouched, and a committed one installs the document. |
| SettingsArgSetter.SetSettingsArg | splasher/config/settings/settings_arg_setter.py:13-33 | Succeeds exactly when the read succeeds, the key already exists and the staging file opens. An unknown key or an unreadable file gives false with no change. The only possible change is `doc[key := value]`. The read lock is taken and released, then the write lock, and the write phase runs only for a known key on a readable file. |
| SettingsArgSetter.SetChangesOnlyKey | splasher/config/settings/settings_arg_setter.py:27-30 | After any set on a document, the key set is identical and every other key keeps its value. |
| SettingsCreator.CreateSettings | splasher/config/settings/settings_creator.py:11-32 | An existing file is left alone with no lock taken. A failed `NewOnly` open raises `SystemExit` and changes nothing. The only change turns a missing file into the template, or into unreadable text when the write is interrupted. On a missing file the write lock is taken once and released on every path, the exit included. |
| SettingsCreator.CreateTwiceIsCreateOnce | splasher/config/settings/settings_creator.py:18-24 | Once a create has returned, a second create does nothing under any I/O outcome. |
| SettingsCreator.CreateIdempotent | splasher/config/settings/settings_creator.py:18-29 | With the same I/O outcomes, two creates leave the same file as one. |
| LegacyGetter.LegacyGetSettingsArg | src/config/settings/get_settings_arg.py:7-29 | Found exactly when the file opens, parses and holds the key with a truthy value. An unparsable file raises `JSONDecodeError`. The file is never modified, and no lock is taken. |
| LegacyGetter.FalsyValueReadsAsMissing | src/config/settings/get_settings_arg.py:19-23 | A present key whose value is falsy, such as `""`, reads as `(false, "")`. |
| LegacySetter.LegacyReadSettings | src/config/settings/set_settings_arg.py:32-51 | A parsed but empty document counts as failure, and a decode error escapes. The read lock is always taken, and it is released exactly when the call returns normally. |
| LegacySetter.LegacyWriteSettings | src/config/settings/set_settings_arg.py:54-69 | Returns true exactly when the in-place `ExistingOnly` open succeeds. A completed write installs the document, and an interrupted one leaves the file unreadable. The write lock is taken once and released. |
| LegacySetter.LegacySetSettingsArg | src/config/settings/set_settings_arg.py:11-29 | A missing file gives false with no read and no lock. A present key is written in place when the write open succeeds and left alone when it fails, and the result is the write's. A readable non-empty document without the key still gives true and is not written; `{}` gives false. An unparsable file raises. Every call that does not return true leaves the file unchanged. An existing file is read under the read lock, and a present key then takes the write lock. |
| LegacySetter.CorruptFileLeaksReadLock | src/config/settings/set_settings_arg.py:39-50 | On an unparsable file the decode error escapes while the one read lock taken is still held. |
| LegacyCreator.LegacyCreateSettings | src/config/settings/create_settings.py:8-26 | An existing file is untouched. A missing file becomes `{"PREVIEW": ""}` when the `NewOnly` open succeeds and the write completes. An interrupted write leaves unreadable text. A failed open is not fatal and leaves the file absent. |
| LegacyCreator.LegacyCreateIdempotent | src/config/settings/create_settings.py:19-25 | With the same I/O outcomes, two creates leave the same file as one. |
| LegacyCreator.LegacyCreateRetriesAfterFailure | src/config/settings/create_settings.py:19-25 | Because the failure is only logged, the file stays absent and a later create can still write the defaults. |
| SettingsStore.Run | splasher/config/settings/__init__.py:1-7 | Over any sequence of gets, sets and creates, every lock acquired is released. Every call gets a reply unless one exits the process. |
| SettingsStore.RunWithoutCreateNeverExits | splasher/config/settings/settings_creator.py:25-29 | Only a failed create ends the process: a sequence of gets and sets always runs to the end. |
| SettingsStore.RunKeepsKeysClosed | splasher/config/settings/settings_arg_setter.py:16-30 | No sequence of calls introduces a key the template lacks. The file is absent, unreadable after an interrupted creation, or has exactly the template's keys. |
| SettingsStore.RunFromDocumentKeepsDocument | splasher/config/settings/settings_arg_setter.py:68-79 | Once the file holds a document, every later sequence of calls leaves a readable document with the same keys and never exits. |
| SettingsStore.GetsOnlyRead | splasher/config/settings/settings_arg_getter.py:21-34 | Any sequence of gets leaves the file unchanged, and each get answers as it would alone. |
| SettingsStore.SetThenGet | tests/config/settings/settings_arg_setter_test.py:35-39 | A set that succeeds and commits is followed by a get that returns `(true, value)`. |
| SettingsStore.InterruptedSetIsInvisible | splasher/config/settings/settings_arg_setter.py:70-78 | A set whose commit does not go through leaves every later get answering as before the set. |
| SettingsStore.SuccessReportedWithoutCommit | splasher/config/settings/settings_arg_setter.py:71-78 | An uncommitted staged write still reports success, and the next get returns the old value. |
| SettingsStore.Walkthrough | tests/config/settings/settings_arg_setter_test.py:33-39 | Create `{"PREVIEW": ""}` from nothing, read `""`, set and read back `"abc/def.jpg"`, then refuse the unknown key `"MISSING"` without changing the file. |
| Revisions.GettersAgreeOnTruthyValues | src/config/settings/get_settings_arg.py:19-21 | On a readable file and a truthy value, both getters give the same answer. |
| Revisions.GettersDifferOnlyOnFalsyValues | src/config/settings/get_settings_arg.py:19-23 | On a readable file, the getters differ exactly when the key is present with a falsy value. |
| Revisions.SettersDisagreeOnUnknownKey | src/config/settings/set_settings_arg.py:22-29 | For a key missing from a non-empty document, with every open succeeding, the current setter returns false and the older one true. Neither writes. |
| Revisions.OnlyStagingSurvivesInterruptedWrite | src/config/settings/set_settings_arg.py:63-66 | After an interrupted write, the staged setter leaves the old document, and the in-place setter leaves an unreadable file. |
| Revisions.SettersAgreeOnSuccess | src/config/settings/set_settings_arg.py:22-24 | When every step succeeds, both setters return true and store the same updated document. |
| Revisions.CreatorsAgreeExceptOnFailure | src/config/settings/create_settings.py:19-25 | Given the older defaults as template, both creators leave the same file, and only the current one exits on a failed open. |

## Left out

- Concurrency. The lock is modelled only as a trace of calls, and all calls run one after another. The lost-update window between the read and write phases of `set_settings_arg` is not modelled: another writer cannot change the file in between.
- JSON text. `json.dumps(..., indent=2)` and `json.loads` are abstracted to the document level. Text that is empty or does not parse is `Corrupt`. Text that parses to something other than an object (`null`, `[]`, `0`, `"x"`) is not modelled. The code behaves unevenly on such text:
  - the current getter raises `TypeError` from the lookup, after `lock.lockForRead()` and before `lock.unlock()`, so the read lock stays held (`splasher/config/settings/settings_arg_getter.py:21-34`); `SettingsStore.Run`'s balanced-lock guarantee covers only object documents;
  - the current setter returns `False` on a list, or on a string that does not contain the key, through the caught `KeyError`; it returns `True` on `null` without writing, because `read_settings` reported success with `None`; it raises `TypeError` on a number, a boolean, a list holding the key or a string containing it (`splasher/config/settings/settings_arg_setter.py:23-33`);
  - the older getter raises `AttributeError` from `.get` (`src/config/settings/get_settings_arg.py:19`);
  - the older setter returns `False` on a falsy value (`null`, `[]`, `0`, `""`) through the "is empty" branch; it returns `True` without writing on a non-empty string or list that does not contain the key; it raises `TypeError` on a non-zero number, `true`, or a container that holds the key (`src/config/settings/set_settings_arg.py:21-29,42-46`).
- JSON's `NaN` and `Infinity` are not modelled either.
- Qt I/O. `QFile`, `QSaveFile` and `QTextStream` become success or failure inputs. The write after a successful `NewOnly` open is an input (`completes`), because neither revision checks it.
- The file path. The model holds a single file, so the path argument (which the creator test passes, though the current `create_settings` has none) is left implicit.
- The `SETTINGS` template. It is imported from `splasher/config/args.py`, but that file does not define it, so it is a parameter of `CreateSettings`.
- Logging and the message text of `sys.exit`. `SystemExit` carries no message.
- LegacyCreator.LegacyCreateIdempotent: a second create is a no-op only under the same I/O outcomes, or once the file exists. After a failed open, a later create may still succeed (`LegacyCreateRetriesAfterFailure`).
- SettingsStore.SetThenGet: the round trip also needs the commit to go through, because the code reports success before committing.
- The GUI, the downloader, folder and log setup, and the constant tables are outside this model.
