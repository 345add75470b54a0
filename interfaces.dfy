/**
 * The default behaviours of the scene's plug-in interfaces (GGScene.h): what a
 * system or a component does for each hook its binding does not override.
 */
module Interfaces {
  import opened Scene
  import opened Config

  /** The value of a setting: a string, an int or a float. */
  datatype SettingValue = StringValue(s: string) | IntValue(i: int) | FloatValue(f: real)

  /** `SystemInterface::update` by default: the system's state `s` is left as it was. */
  function DefaultUpdate<S>(s: S, frame: real): (r: S)
    ensures r == s
  {
    s
  }

  /** `SystemInterface::setting` by default: every key and value is ignored. */
  function DefaultSetting<S>(s: S, key: string, val: SettingValue): (r: S)
    ensures r == s
  {
    s
  }

  /** `ComponentInterface::add` by default: the registry's components are left as they were. */
  function DefaultAdd<C>(components: map<EntityId, C>, e: EntityId, cfg: Object): (r: map<EntityId, C>)
    ensures r == components
  {
    components
  }

  /** `ComponentInterface::create_instance` by default: nothing is created and the answer is false. */
  function DefaultCreateInstance<C>(components: map<EntityId, C>, e: EntityId, cfg: Object): (created: bool)
    ensures !created
  {
    false
  }
}
