/** What the two pygame wrapper modules (py/pglib.py and pglib.py) share:
    the display-flag selection from the command line and the events `loop`
    looks at. pygame's flag bits are modelled as a set of flag names. */
module Display {

  /** The pygame display flags the wrappers may pass to `set_mode`. */
  datatype Flag = DoubleBuf | Fullscreen | HwSurface | NoFrame | Resizable

  /** The keys `loop` distinguishes. */
  datatype Key = Escape | OtherKey

  /** A pygame event, as far as `loop` inspects it. */
  datatype Event = Quit | KeyDown(key: Key) | OtherEvent

  /** The option string `argv[1]` contains the letter `c`. */
  predicate OptionHas(argv: seq<string>, c: char) {
    |argv| > 1 && c in argv[1]
  }

  /** The flags the command line asks for: `DOUBLEBUF` always; then, when
      there is an option string, `f` adds `FULLSCREEN | HWSURFACE` and
      otherwise `n` adds `NOFRAME` and `r` adds `RESIZABLE`. */
  predicate FlagsFor(argv: seq<string>, flags: set<Flag>) {
    && DoubleBuf in flags
    && (Fullscreen in flags <==> OptionHas(argv, 'f'))
    && (HwSurface in flags <==> Fullscreen in flags)
    && (NoFrame in flags <==> OptionHas(argv, 'n') && !OptionHas(argv, 'f'))
    && (Resizable in flags <==> OptionHas(argv, 'r') && !OptionHas(argv, 'f'))
  }

  /** The flag selection of `Screen.__init__`. */
  method SelectFlags(argv: seq<string>) returns (flags: set<Flag>)
    ensures FlagsFor(argv, flags)
    ensures Fullscreen in flags ==> flags == {DoubleBuf, Fullscreen, HwSurface}
    ensures |argv| <= 1 ==> flags == {DoubleBuf}
  {
    flags := {DoubleBuf};
    if |argv| > 1 {
      if 'f' in argv[1] {
        flags := flags + {Fullscreen, HwSurface};
      } else {
        if 'n' in argv[1] {
          flags := flags + {NoFrame};
        }
        if 'r' in argv[1] {
          flags := flags + {Resizable};
        }
      }
    }
  }
}
