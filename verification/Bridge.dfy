/** What the modelled parts of the bridge have in common. */
module Bridge {

  /** How the bridge stores core's values. `SharedCell`: copies of a bridge object point at
      one heap cell. `DeepCopy`, the generated-types build: copies own their value. */
  datatype Build = SharedCell | DeepCopy

  type ColKey = nat
}
