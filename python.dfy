/** Python-level values and the foreign calls the cache makes (hash
    digests, `str`, `repr`, `strftime`). The foreign calls are not given
    definitions: they arrive as total function values inside a `Runtime`,
    so every property proved below holds for every choice of them. */
module Python {

  datatype Option<+T> = None | Some(value: T)

  /** A Python object as the cache sees it. Pickling is taken to be the
      identity, so an object is its own serialised form. */
  datatype PyObj = PyNone | PyObject(id: nat)

  /** The foreign functions the cache calls.
      - `sha512`: `hashlib.sha512(s.encode()).hexdigest()`
      - `md5`: `hashlib.md5(s.encode()).hexdigest()`
      - `str` and `repr`: Python's `str(x)` and `repr(x)`.
      - `strftime`: `x.strftime('%Y%m%d_%H%M')`, or `None` when it raises
        (for example, when `x` is not a date). */
  datatype Runtime = Runtime(
    sha512: string -> string,
    md5: string -> string,
    str: PyObj -> string,
    repr: PyObj -> string,
    strftime: PyObj -> Option<string>)

  predicate IsHexDigit(c: char) {
    '0' <= c <= '9' || 'a' <= c <= 'f'
  }

  /** A `hexdigest()` result: lower-case hexadecimal characters only. */
  predicate IsHexDigest(s: string) {
    forall i | 0 <= i < |s| :: IsHexDigit(s[i])
  }

  /** The exceptions the cache raises or lets through, each named by what
      goes wrong. */
  datatype Fault =
    | MalformedKey           // `key_to_file`: the key does not split into 4 fields (ValueError)
    | NotAPickle             // `pickle.load`/`pickle.loads` of something that is no pickle
    | Unreadable             // `open` of a missing file or a directory
    | EvictionOnEmptySet     // `store` with limit <= 0: `delete(None)` after the set is empty
    | EmptySearchPattern     // `clear_memory`: `search_str[-1]` of an empty pattern (IndexError)
    | NoParameterBlock       // `clear_files`: no `(.*)({.*})` match in a definition (IndexError)
    | NotADirectory          // makedirs over a file, or listdir of a missing directory
    | EndWithoutStart        // `clear` with an end date and no start date (ValueError)
    | NotADate               // `strftime` of a value that is not a date
    | UnknownCacheError      // `cache_it`: any other failure of `get` (raising a str)
    | DoNotCacheEscaped      // `DoNotCache` raised by the function when there is no connection

  datatype Result<+T> = Ok(value: T) | Err(fault: Fault)
}
