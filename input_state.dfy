/**
 * The high-frequency keyboard state the fly controls read every frame: which
 * key codes are held down. A key is reported pressed only when its entry is
 * present and true.
 */
module InputState {
  /** Whether `code` reads as held down in `keys` (a missing entry reads as not held). */
  predicate Pressed(keys: map<string, bool>, code: string) {
    code in keys && keys[code]
  }

  class Store {
    var keys: map<string, bool>

    /** No key is held at first. */
    constructor ()
      ensures keys == map[]
    {
      keys := map[];
    }

    /**
     * `setKey(code, pressed)`: record the key's new state. When the stored
     * entry already equals `pressed` the store keeps its state object and no
     * subscriber hears of it; `replaced` says whether the state was replaced.
     * A missing entry never equals `pressed`, so a first `false` adds one.
     */
    method SetKey(code: string, pressed: bool) returns (replaced: bool)
      modifies this
      ensures keys == old(keys)[code := pressed]
      ensures replaced <==> !(code in old(keys) && old(keys)[code] == pressed)
      ensures !replaced ==> keys == old(keys)
      ensures Pressed(keys, code) == pressed
      ensures forall c :: c != code ==> Pressed(keys, c) == Pressed(old(keys), c)
    {
      if code in keys && keys[code] == pressed {
        assert keys[code := pressed] == keys;
        return false;
      }
      keys := keys[code := pressed];
      return true;
    }

    /** `resetKeys()`: forget every key. */
    method ResetKeys()
      modifies this
      ensures keys == map[]
      ensures forall c :: !Pressed(keys, c)
    {
      keys := map[];
    }
  }

  /** Pressing and then releasing a key leaves it reading as not held, whatever it read before. */
  method PressRelease(s: Store, code: string)
    modifies s
    ensures !Pressed(s.keys, code)
    ensures forall c :: c != code ==> Pressed(s.keys, c) == Pressed(old(s.keys), c)
  {
    var _ := s.SetKey(code, true);
    var _ := s.SetKey(code, false);
  }
}
