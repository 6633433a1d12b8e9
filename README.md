# django-pglocks `advisory_lock`, modelled in Dafny

django-pglocks wraps PostgreSQL's session-level advisory locks in a Python object,
`advisory_lock`, that is used directly or as a context manager. The constructor
does three things:

- It picks the database connection.
- It turns the lock id into arguments for PostgreSQL. An integer is passed through. A pair of integers stays a pair. A string becomes the CRC-32 of its UTF-8 bytes, folded into the signed 32-bit range. Anything else is rejected with `ValueError`.
- It chooses one of four lock functions (`pg_[try_]advisory_lock[_shared]`) and the matching unlock function, and builds the `SELECT` template with its two parameter tuples.

`acquire` opens a cursor and sends the lock statement. A blocking lock is held once the statement returns; a try-lock holds whatever the server answered. `release` sends the unlock statement only when the lock is held, then closes the cursor.

The project is organised in modules:

- `PyValues` holds the Python values a lock id can be. Python 3 is modelled, so `bool` counts as an integer.
- `Crc32` is zlib's CRC-32, computed bit by bit.
- `Utf8` is the UTF-8 encoder, with a decoder that inverts it.
- `Bitwise` is `&` on non-negative integers.
- `Decimal` is `str(int)`.
- `PercentFormat` is `%` formatting for `%s`, `%d` and `%%`.
- `LockId` is everything the constructor computes.
- `AdvisoryLocks` has the classes `Cursor`, `Connection` and `AdvisoryLock`, with the life cycle of a lock.

The cursor is a log of executed statements, a closed flag, and the answer the server gives to a try-lock. That answer is a parameter of `Acquire`.

Some points where the code is more permissive than PostgreSQL or than one might expect:

- PostgreSQL's advisory-lock functions take one `bigint` or two `integer`s. The code does not range-check integer keys or pair members, and neither does the model: any Python `int` is passed through.
- `True` and `False` are accepted as integer keys, since `bool` is an `int` in Python 3; `%d` writes them as `1` and `0`.
- The connection and alias check follows the code: `assert not using` when a connection is given, otherwise `connections["default" if using is None else using]`. The alias is `"default"` only when `using` is `None`. An empty-string alias is looked up as it is.

## Model

| member | source | states |
|---|---|---|
| `Crc32.Checksum` | django_pglocks/__init__.py:59 | `zlib.crc32` of the bytes: the reflected CRC-32 register preset to and finished with 0xFFFFFFFF. It has no contract of its own; its partners are the three lemmas below. |
| `Crc32.UpdateAppend` | django_pglocks/__init__.py:59 | Feeding a concatenation through the CRC register is feeding the parts in turn. |
| `Crc32.EmptyChecksum` | django_pglocks/__init__.py:59 | The checksum of no bytes is 0. |
| `Crc32.CheckValue` | django_pglocks/__init__.py:59 | The standard CRC-32 check value: `"123456789"` gives 0xCBF43926. |
| `Utf8.CodeUnits` | django_pglocks/__init__.py:59 | A character encodes to one to four byte values, each in [0, 256). |
| `Utf8.DecodeEncodeChar` | django_pglocks/__init__.py:59 | Decoding the bytes of one character, whatever follows them, gives back the character and the number of bytes it took. |
| `Utf8.Encode` | django_pglocks/__init__.py:59 | An encoding has between one and four bytes per character. |
| `Utf8.DecodeEncode` | django_pglocks/__init__.py:59 | Decoding the UTF-8 encoding of any string gives the string back. |
| `Utf8.EncodeInjective` | django_pglocks/__init__.py:59 | Distinct strings have distinct encodings. |
| `Utf8.EncodeAscii` | django_pglocks/__init__.py:59 | An ASCII string encodes to one byte per character: its code. |
| `Bitwise.And` | django_pglocks/__init__.py:60-61 | `a & b` of non-negative integers never exceeds either operand. Its bits are described by `AndLowMask` and `AndSingleBit`. |
| `Bitwise.SplitBits` | django_pglocks/__init__.py:60-61 | A number is its low `k` bits plus `2^k` times the bits above them. |
| `Bitwise.AndLowMask` | django_pglocks/__init__.py:60 | `(2^k - 1) & x` is the low `k` bits of `x`. |
| `Bitwise.AndSingleBit` | django_pglocks/__init__.py:61 | `2^k & x` is `2^k` when bit `k` of `x` is set, else 0. |
| `Bitwise.AndLow31` | django_pglocks/__init__.py:60 | For a 32-bit `x`, `(2**31 - 1) & x` is `x` with bit 31 cleared. |
| `Bitwise.AndBit31` | django_pglocks/__init__.py:61 | For a 32-bit `x`, `x & 2**31` is non-zero exactly when `x >= 2^31`. |
| `Decimal.Digits` | django_pglocks/__init__.py:78 | A natural number is written in digits with no leading zero. |
| `Decimal.Render` | django_pglocks/__init__.py:78 | `str(n)` is digits with a leading `-` exactly when `n < 0`. |
| `Decimal.ParseRender` | django_pglocks/__init__.py:78 | Parsing `str(n)` gives `n` back. |
| `PercentFormat.Convert` | django_pglocks/__init__.py:78 | `%d` of an integer is text that parses back to that integer; a bool gives `1` or `0`; `%d` of a string, list, tuple or None fails. `%s` of a string is the string. |
| `PercentFormat.Format` | django_pglocks/__init__.py:78 | `fmt % args`, used at lines 78 and 91. It has no contract of its own; its partners are the four lemmas below and `LockId.FormatCall`. |
| `PercentFormat.FormatPlain` | django_pglocks/__init__.py:78 | Template text without `%` is copied as it is. |
| `PercentFormat.FormatConversion` | django_pglocks/__init__.py:78 | A conversion consumes the next argument and emits its text. |
| `PercentFormat.FormatEnd` | django_pglocks/__init__.py:78 | A template without conversions and an empty tuple give the template. |
| `PercentFormat.FormatStep` | django_pglocks/__init__.py:78 | Plain text and one conversion emit the text and the converted argument, then the rest of the template continues. |
| `LockId.FoldChecksum` | django_pglocks/__init__.py:59-62 | The fold yields a value in [-2^31, 2^31): the checksum itself below 2^31, the checksum minus 2^32 from there. |
| `LockId.StringId` | django_pglocks/__init__.py:55-62 | The id of every string key lies in [-2^31, 2^31). |
| `LockId.FoldCongruent` | django_pglocks/__init__.py:59-62 | The fold is congruent to the checksum modulo 2^32. |
| `LockId.FoldInjective` | django_pglocks/__init__.py:59-62 | Distinct 32-bit checksums fold to distinct ids. |
| `LockId.FoldSurjective` | django_pglocks/__init__.py:59-62 | Every signed 32-bit integer is the fold of a checksum. |
| `LockId.StringIdExample` | django_pglocks/__init__.py:55-62 | `"example"` (checksum 0x6EEC9B9F, bit 31 clear) has id 1861000095. |
| `LockId.StringIdNegativeExample` | django_pglocks/__init__.py:55-62 | `"a"` (checksum 0xE8B7BE43, bit 31 set) has id -390611389. |
| `LockId.Normalize` | django_pglocks/__init__.py:47-64 | An accepted key yields integer arguments, and a pair exactly when the key is a list or tuple. |
| `LockId.NormalizeSucceedsIff` | django_pglocks/__init__.py:47-64 | A key is accepted exactly when it is an integer, a string, or a list or tuple of two integers. |
| `LockId.NormalizeRejections` | django_pglocks/__init__.py:47-64 | The three `ValueError` causes, each if and only if: wrong length, non-integer member, unsupported type. |
| `LockId.ValidationIgnoresOptions` | django_pglocks/__init__.py:28-64 | Whether a key is rejected, and why, does not depend on `shared` or `wait`. |
| `LockId.Template` | django_pglocks/__init__.py:66-71 | `SELECT %s(%d, %d)` for a pair, `SELECT %s(%d)` otherwise. It has no contract of its own; `LockId.FormatCall` proves what applying it gives. |
| `LockId.AcquireFunctionName` | django_pglocks/__init__.py:29-37 | The four lock functions: `pg_advisory_lock`, `pg_advisory_lock_shared`, `pg_try_advisory_lock`, `pg_try_advisory_lock_shared`. |
| `LockId.ReleaseFunctionName` | django_pglocks/__init__.py:39-41 | The unlock function is `pg_advisory_unlock` or `pg_advisory_unlock_shared`, whatever `wait` is. |
| `LockId.AcquireFunctionNamesDistinct` | django_pglocks/__init__.py:29-37 | Two option pairs give the same lock function exactly when they are equal. |
| `LockId.FunctionNamesAgreeOnSharing` | django_pglocks/__init__.py:29-41 | Lock and unlock functions end in `_shared` exactly for shared locks. |
| `LockId.Build` | django_pglocks/__init__.py:45-75 | Construction computes a query exactly when the key is accepted. |
| `LockId.IntegerKey` | django_pglocks/__init__.py:63-75 | An integer key (a bool included) is passed through unchanged, with `SELECT %s(%d)`. |
| `LockId.PairKey` | django_pglocks/__init__.py:47-75 | A pair keeps its two members in order, with `SELECT %s(%d, %d)`. |
| `LockId.StringKey` | django_pglocks/__init__.py:55-75 | A string key becomes its folded checksum, in range, with `SELECT %s(%d)`. |
| `LockId.ParamsShareArguments` | django_pglocks/__init__.py:73-75 | The two parameter tuples differ only in the function name; the id arguments are identical. |
| `LockId.CallText` | django_pglocks/__init__.py:78 | The SQL of one call, `SELECT name(id)` or `SELECT name(first, second)`. It has no contract of its own; its partners are `LockId.FormatCall` and `LockId.CallTextDeterminesIds`. |
| `LockId.FormatCall` | django_pglocks/__init__.py:66-75 | The template applied to a parameter tuple is `SELECT name(args)` with the ids in decimal. |
| `LockId.FormatSingleCall` | django_pglocks/__init__.py:70-71 | `"SELECT %s(%d)" % (name, id)` is `SELECT name(id)`. |
| `LockId.FormatPairCall` | django_pglocks/__init__.py:67-68 | `"SELECT %s(%d, %d)" % (name, a, b)` is `SELECT name(a, b)`. |
| `LockId.Commands` | django_pglocks/__init__.py:78-91 | Formatting the lock and unlock commands never fails, and both name the same arguments. Python's limit on the digits of an `int` is not modelled; see Left out. |
| `LockId.ParseArgumentText` | django_pglocks/__init__.py:78 | Reading the argument text of a command back gives the ids it was written from. |
| `LockId.CallTextDeterminesIds` | django_pglocks/__init__.py:78-92 | Two calls of the same function send the same text only when they name the same ids, so the command sent identifies the lock. |
| `AdvisoryLocks.Initialize` | django_pglocks/__init__.py:16-75 | The setup carries the query built from the key; an explicit connection, and the `using` given, are kept as they are. |
| `AdvisoryLocks.InitializeFailures` | django_pglocks/__init__.py:16-64 | Construction fails, each if and only if: alias given with a connection; unknown alias; rejected key. The connection is checked first. |
| `AdvisoryLocks.InitializeLooksUpAlias` | django_pglocks/__init__.py:19-24 | Without a connection, the database under `using`, or `"default"`, is used, and that alias is stored. |
| `AdvisoryLocks.Cursor.Execute` | django_pglocks/__init__.py:81 | Executing appends the statement to the cursor's log. |
| `AdvisoryLocks.Cursor.FetchOne` | django_pglocks/__init__.py:84 | `fetchone()[0]` is the server's answer. |
| `AdvisoryLocks.Cursor.Close` | django_pglocks/__init__.py:94 | Closing leaves the log as it is and marks the cursor closed. |
| `AdvisoryLocks.Connection.OpenCursor` | django_pglocks/__init__.py:79 | A new cursor has an empty log and is open. |
| `AdvisoryLocks.AdvisoryLock.constructor` | django_pglocks/__init__.py:8-75 | The stored query is the one the key and options call for; no cursor exists and `acquired` is not yet set. |
| `AdvisoryLocks.AdvisoryLock.Create` | django_pglocks/__init__.py:8-75 | The constructor fails exactly as `Initialize` does, and otherwise stores the options, the chosen connection and alias, and the query. |
| `AdvisoryLocks.AdvisoryLock.Acquire` | django_pglocks/__init__.py:77-87 | A fresh cursor runs exactly one statement, the lock command. `acquired` is true when blocking, else the server's answer. The result equals `acquired`. |
| `AdvisoryLocks.AdvisoryLock.Release` | django_pglocks/__init__.py:89-94 | The unlock command is sent iff `acquired` was true. `acquired` becomes false and the cursor is closed. Before any acquire there is no cursor, nothing happens and the call fails. |
| `AdvisoryLocks.AdvisoryLock.Enter` | django_pglocks/__init__.py:96-97 | `__enter__` behaves as `acquire` and returns its result. |
| `AdvisoryLocks.AdvisoryLock.Exit` | django_pglocks/__init__.py:99-100 | `__exit__` behaves as `release`. |
| `AdvisoryLocks.BlockingSession` | django_pglocks/__init__.py:77-100 | Calling `__enter__()` and then `__exit__()` directly on a blocking lock holds it and sends exactly the lock then the unlock command for the same id, and the cursor ends closed. A `with` statement would fail instead: see `AdvisoryLocks.AdvisoryLock.Exit` under Left out. |
| `AdvisoryLocks.TrySession` | django_pglocks/__init__.py:77-100 | Calling `__enter__()` and then `__exit__()` directly on a try-lock holds what the server granted and sends the unlock command exactly when it was granted; the cursor ends closed either way. A `with` statement would fail instead: see `AdvisoryLocks.AdvisoryLock.Exit` under Left out. |
| `AdvisoryLocks.ReleaseTwice` | django_pglocks/__init__.py:89-94 | Releasing twice sends the unlock command at most once. |
| `AdvisoryLocks.ReleaseBeforeAcquire` | django_pglocks/__init__.py:89-90 | Releasing a lock that was never acquired fails and sends nothing. |

## Left out

- The real database and psycopg2 are not modelled. The cursor is a statement log, a closed flag and a scripted answer; the server's try-lock answer is a parameter of `Acquire`.
- PostgreSQL's locking semantics are not modelled: blocking, shared versus exclusive contention, and waiter order.
- Django's connection registry is a map from alias to connection, passed to `Create`. `DEFAULT_DB_ALIAS` is taken as `"default"`, Django's value. A missing alias is reported as `UnknownAlias`, not as Django's exception.
- Exceptions raised by `execute`, `fetchone` or `close` are not modelled. A statement that fails mid-way leaves a state the model does not cover.
- `AdvisoryLocks.AdvisoryLock.Release`: `acquired` is never set by `__init__`, so `release` before `acquire` raises `AttributeError` at line 90. The model reports this as `ok == false` with the state unchanged; it is not intended behaviour.
- `AdvisoryLocks.AdvisoryLock.Exit`: `__exit__` takes no exception arguments, so a real `with` statement would raise `TypeError` when it calls it. Only the delegation to `release` is modelled.
- `LockId.Commands`: from Python 3.11, converting an `int` of more than 4300 decimal digits to text raises `ValueError` by default, so `%d` at lines 78 and 91 fails for such a key. The model renders every integer, and `Decimal.Render` has no digit limit.
- `AdvisoryLocks.AdvisoryLock.Acquire`: a second `acquire` replaces the cursor without closing the old one. The model does the same and says nothing more about the old cursor.
- `PercentFormat.Convert`: `%d` of a float or another non-`int` real number is not modelled. Python truncates it to an integer's digits; the model gives None, as for a non-number. The lock commands never reach this case, because line 63 rejects such a key before lines 78 and 91 format anything.
- `PercentFormat` covers only `%s`, `%d` and `%%`, the conversions the two templates use. `%s` of a value that is not a string, integer or bool gives None, because `str()` of other objects is not modelled.
- The `ValueError` message texts are not modelled. The error is a `KeyRejection` value naming the cause; the rejected key's `%s` rendering at line 64 is not modelled.
- Strings are Dafny strings, so every character is a Unicode scalar value. A Python `str` holding a lone surrogate, for which `encode("utf-8")` raises, cannot occur.
- Python 2 (`six.string_types` including `unicode`, `long` integers, a signed `crc32`) is not modelled; Python 3 is.
- The `lock_id` and `using` attributes are stored, but nothing reads them after construction. No property is stated about them beyond their values.
