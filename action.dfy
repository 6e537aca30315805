/**
 * The set of pending user actions. Triggering inserts, withdrawing removes and
 * clearing empties the set; the renderer draws a frame only while the set is
 * non-empty.
 */
module Actions {

  datatype Action =
    | CameraMoveForward
    | CameraMoveBackward
    | CameraMoveLeft
    | CameraMoveRight
    | CameraMoveUp
    | CameraMoveDown
      /** Horizontal clockwise turn. */
    | CameraRotationCW
      /** Horizontal counter-clockwise turn. */
    | CameraRotationCCW
    | CameraRotationUp
    | CameraRotationDown
      /** Forces one frame to be drawn. */
    | RequestRender

  class ActionManager {
    var actions: set<Action>

    constructor ()
      ensures actions == {}
      ensures !HasActions()
    {
      actions := {};
    }

    predicate IsTriggerred(action: Action)
      reads this
    {
      action in actions
    }

    /** Some action is pending. */
    predicate HasActions()
      reads this
    {
      actions != {}
    }

    method Trigger(action: Action)
      modifies this
      ensures actions == old(actions) + {action}
      ensures IsTriggerred(action) && HasActions()
      ensures forall b :: b != action ==> (IsTriggerred(b) <==> old(IsTriggerred(b)))
      ensures old(IsTriggerred(action)) ==> actions == old(actions)
    {
      actions := actions + {action};
    }

    method Withdraw(action: Action)
      modifies this
      ensures actions == old(actions) - {action}
      ensures !IsTriggerred(action)
      ensures forall b :: b != action ==> (IsTriggerred(b) <==> old(IsTriggerred(b)))
      ensures !old(IsTriggerred(action)) ==> actions == old(actions)
    {
      actions := actions - {action};
    }

    method Clear()
      modifies this
      ensures actions == {}
      ensures !HasActions() && forall b :: !IsTriggerred(b)
    {
      actions := {};
    }
  }

  /** The set is non-empty exactly when some action is triggered. */
  lemma HasActionsIff(am: ActionManager)
    ensures am.HasActions() <==> exists a :: am.IsTriggerred(a)
  {
    if am.HasActions() {
      var a :| a in am.actions;
      assert am.IsTriggerred(a);
    }
  }
}
