/**
 * Navigation menu links contributed by plugins: PluginMenuItem and PluginMenuButton.
 *
 * Both classes are created once and never changed afterwards, so they are values here; their
 * constructors, which apply class-level defaults and reject bad arguments, are methods returning
 * the new value or the exception raised.
 */
module Navigation {
  import opened Wrappers

  /** An argument that the constructors require to be exactly a list or a tuple. */
  datatype Sequence<T> = PyList(items: seq<T>) | PyTuple(items: seq<T>) | OtherType(typeName: string)

  /** ButtonColorChoices: the allowed button colours and the neutral default one. */
  datatype ColorChoices = ColorChoices(values: set<string>, default: string)

  datatype MenuButton = MenuButton(link: string, title: string, iconClass: string, color: string, permissions: seq<string>)

  /** An element of a menu item's buttons: a PluginMenuButton instance, or any other object. */
  datatype ButtonSlot = Button(button: MenuButton) | NotAButton(name: string)

  datatype MenuItem = MenuItem(link: string, linkText: string, permissions: seq<string>, buttons: seq<ButtonSlot>)

  /** An element of a plugin's menu_items: a PluginMenuItem instance, or any other object. */
  datatype MenuEntry = Item(item: MenuItem) | NotAnItem(name: string)

  datatype Argument = Permissions | Buttons

  /** TypeError for an argument that is not a list or tuple; ValueError for a colour outside the choices. */
  datatype ConstructionError = TypeError(argument: Argument) | ValueError(color: string)

  /** `type(x) in (list, tuple)`; an omitted argument (None) is acceptable too. */
  predicate ListOrTupleOrOmitted<T>(arg: Option<Sequence<T>>) {
    arg.None? || !arg.value.OtherType?
  }

  /** The elements a list or tuple argument supplies, or the class default `[]` when omitted. */
  function ElementsOrEmpty<T>(arg: Option<Sequence<T>>): seq<T>
    requires ListOrTupleOrOmitted(arg)
  {
    if arg.None? then [] else arg.value.items
  }

  /** A button whose colour a successful construction could have produced. */
  predicate ColorAllowed(b: MenuButton, choices: ColorChoices) {
    b.color == choices.default || b.color in choices.values
  }

  /** PluginMenuItem(link, link_text, permissions=None, buttons=None). */
  method NewMenuItem(link: string, linkText: string, permissions: Option<Sequence<string>>, buttons: Option<Sequence<ButtonSlot>>)
    returns (r: Result<MenuItem, ConstructionError>)
    ensures r.Success? <==> ListOrTupleOrOmitted(permissions) && ListOrTupleOrOmitted(buttons)
    ensures !ListOrTupleOrOmitted(permissions) ==> r == Failure(TypeError(Permissions))
    ensures ListOrTupleOrOmitted(permissions) && !ListOrTupleOrOmitted(buttons) ==> r == Failure(TypeError(Buttons))
    ensures r.Success? ==> r.value.link == link && r.value.linkText == linkText
    ensures r.Success? ==> r.value.permissions == ElementsOrEmpty(permissions) && r.value.buttons == ElementsOrEmpty(buttons)
  {
    // class attributes `permissions = []` and `buttons = []` are the defaults
    var itemPermissions: seq<string> := [];
    var itemButtons: seq<ButtonSlot> := [];
    if permissions.Some? {
      if permissions.value.OtherType? {
        return Failure(TypeError(Permissions));
      }
      itemPermissions := permissions.value.items;
    }
    if buttons.Some? {
      if buttons.value.OtherType? {
        return Failure(TypeError(Buttons));
      }
      itemButtons := buttons.value.items;
    }
    return Success(MenuItem(link, linkText, itemPermissions, itemButtons));
  }

  /** PluginMenuButton(link, title, icon_class, color=None, permissions=None). */
  method NewMenuButton(choices: ColorChoices, link: string, title: string, iconClass: string,
                       color: Option<string>, permissions: Option<Sequence<string>>)
    returns (r: Result<MenuButton, ConstructionError>)
    ensures r.Success? <==> ListOrTupleOrOmitted(permissions) && (color.None? || color.value in choices.values)
    ensures !ListOrTupleOrOmitted(permissions) ==> r == Failure(TypeError(Permissions))
    ensures ListOrTupleOrOmitted(permissions) && color.Some? && color.value !in choices.values ==>
              r == Failure(ValueError(color.value))
    ensures r.Success? ==> r.value.link == link && r.value.title == title && r.value.iconClass == iconClass
    ensures r.Success? ==> r.value.color == (if color.None? then choices.default else color.value)
    ensures r.Success? ==> r.value.permissions == ElementsOrEmpty(permissions)
    ensures r.Success? ==> ColorAllowed(r.value, choices)
  {
    // class attributes `color = ButtonColorChoices.DEFAULT` and `permissions = []` are the defaults
    var buttonColor := choices.default;
    var buttonPermissions: seq<string> := [];
    if permissions.Some? {
      if permissions.value.OtherType? {
        return Failure(TypeError(Permissions));
      }
      buttonPermissions := permissions.value.items;
    }
    if color.Some? {
      if color.value !in choices.values {
        return Failure(ValueError(color.value));
      }
      buttonColor := color.value;
    }
    return Success(MenuButton(link, title, iconClass, buttonColor, buttonPermissions));
  }
}
